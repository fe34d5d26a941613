# fbpcf and Lift core in Dafny

This project models the core of Facebook's private-computation framework
(fbpcf) and the Lift aggregation game built on it, and proves properties
of that model. It covers:

- the edit-distance example: the character costs, the dynamic-programming
  table, the message decision and the result validator;
- the frontend `Int` circuits (adder, subtractor, comparators, input
  handling) and the `BitString` wrapper;
- the scheduler's bookkeeping: the wire keeper with reference counts, the
  plaintext and MPC gate keepers that place gates on levels, the
  plaintext scheduler, and the rebatching gate;
- the secret-share engine (XOR/NOT/AND on shares, batch and composite
  ANDs with Beaver triples, offsets of the opened values) and the tuple
  generator's tuples and metrics;
- the party communication agent's typed send and receive with bit
  packing, and the engine's 128-bit helpers;
- the plaintext types of the standard library (`Intp`, `uint32`,
  `AggregationValue`);
- the row serialisation for UDP: integer, packed-bit and fixed-size-array
  columns and the row structure that writes and reads whole rows;
- the UDP encryption state machine with the peer's cherry-picked rows;
- the AES circuit (S-box, ShiftRows, MixColumns, rounds and key schedule
  application) and the size checks of AES-CTR;
- the breakdown filters of `IFilter`;
- Lift's metrics, their flattening into vectors and the k-anonymity game.

One Dafny module sits in one file and follows one source file or a small
group of them. Objects whose fields the source updates in place are
classes whose methods are proved against pure reference functions; pure
code is datatypes, functions and lemmas. Integer widths are written out:
`Common.WrapU`/`Common.WrapS` give the unsigned and two's-complement
wrap-around at a width, `Pow2` and `BitsToNat`/`NatToBits` link bit
vectors and numbers. The communication agent, randomness and the other
party are parameters of the operations that use them.

## Model

| member | source | states |
|---|---|---|
| EditDistance.SubstitutionCost | example/edit_distance/EditDistanceCalculator_impl.h:64-67 | the intended substitution cost is one of the two differences of the codes, and is 0 exactly when the characters are equal |
| EditDistance.AsciiDistIsSubstitutionCost | example/edit_distance/EditDistanceCalculator_impl.h:64-67 | for two ASCII characters the 8-bit difference chosen by `wordLetter < guessLetter` and widened to 32 bits is the absolute difference of their codes |
| EditDistance.AsciiDistWrapsOnNonAscii | example/edit_distance/EditDistanceCalculator_impl.h:64-67 | for the byte 0xC3 against 'z' the 8-bit difference wraps and the cost is -73, where the absolute difference is 183 |
| EditDistance.CellFirstRow | example/edit_distance/EditDistanceCalculator_impl.h:51-54 | cell (0, j) of the table is the deletion cost times the number of in-bounds guess positions below j |
| EditDistance.CellFirstColumn | example/edit_distance/EditDistanceCalculator_impl.h:51-57 | cell (i, 0) of the table is the insertion cost times the number of in-bounds word positions below i |
| EditDistance.CellIsClassic | example/edit_distance/EditDistanceCalculator_impl.h:59-91 | every cell of the masked table equals the textbook edit-distance cell at the indices clipped to the two private sizes: out-of-bounds rows and columns copy their neighbour |
| EditDistance.CellIsClassicEdge | example/edit_distance/EditDistanceCalculator_impl.h:45-57 | on row 0 and column 0 the masked table equals the textbook table at the clipped indices |
| EditDistance.CellIsClassicStep | example/edit_distance/EditDistanceCalculator_impl.h:83-89 | the four-way mux of a cell keeps the correspondence with the textbook table, given that its three neighbours do |
| EditDistance.CellIsClassicInside | example/edit_distance/EditDistanceCalculator_impl.h:68-72 | with both positions in bounds, the cell is the minimum of the replace, insert and delete solutions, as in the textbook recurrence |
| EditDistance.ClassicPrefix | example/edit_distance/EditDistanceCalculator_impl.h:59-63 | the textbook cell (i, j) reads only the first i characters of the word and the first j of the guess |
| EditDistance.EditDistanceCorrect | example/edit_distance/EditDistanceCalculator_impl.h:19-93 | for null-free ASCII texts padded to the maximum width, the private sizes are the text lengths and the last cell of the table is their weighted edit distance |
| EditDistance.FillEdges | example/edit_distance/EditDistanceCalculator_impl.h:33-57 | the bounds flags, then row 0 and column 0 of the table: each equals the reference cell |
| EditDistance.FillRow | example/edit_distance/EditDistanceCalculator_impl.h:60-90 | the inner loop fills row i with the reference cells and leaves every other row as it was |
| EditDistance.CalculateEditDistance | example/edit_distance/EditDistanceCalculator_impl.h:19-93 | calculateEditDistances returns the reference cell (n, n) for the private sizes of the two padded texts |
| EditDistance.DoubledThreshold | example/edit_distance/EditDistanceCalculator_impl.h:103 | `threshold + threshold` on the 32-bit public threshold stays in the int32 range; it is the plain sum below 2^30 and negative from 2^30 on (also line 127) |
| EditDistance.CalculateMessage | example/edit_distance/EditDistanceCalculator_impl.h:101-132 | the receiver gets the whole message when the distance is below the threshold, the half message (character i kept when 2i+1 is below the private size) up to the 32-bit doubled threshold, and all zeros beyond it |
| EditDistance.HalfMessageText | example/edit_distance/EditDistanceCalculator_impl.h:118-124 | read back as text, the half message of a null-free message is its first \|s\| / 2 characters |
| EditDistance.ReceiverMessageText | example/edit_distance/EditDistanceCalculator_impl.h:126-128 | read back as text, the receiver's message is the whole text, its first half or empty, following the three threshold cases |
| EditDistance.ClassicNonNegative | example/edit_distance/EditDistanceCalculator_impl.h:68-72 | with non-negative insertion and deletion costs every textbook cell is non-negative |
| EditDistance.ClassicDiagonalZero | example/edit_distance/EditDistanceCalculator_impl.h:68-72 | a text against itself has distance 0 on the diagonal |
| EditDistance.DistanceBasics | example/edit_distance/EditDistanceCalculator_impl.h:51-72 | identical texts are at distance 0, and a text against the empty text costs one insertion or one deletion per character |
| EditDistance.DistanceAtMostSubstitutions | example/edit_distance/EditDistanceCalculator_impl.h:68 | the distance is at most the sum of the position-by-position substitution costs |
| EditDistance.ThankThinkUnitCosts | example/edit_distance/EditDistanceCalculator_impl.h:59-93 | "thank" against "think" with unit costs is at distance 2 |
| EditDistance.ThankThink | example/edit_distance/EditDistanceCalculator_impl.h:59-93 | "thank" against "think" with insertion 30 and deletion 35 is at distance 8 |
| EditDistance.TrailToil | example/edit_distance/EditDistanceCalculator_impl.h:59-93 | "trail" against "toil" with insertion 30 and deletion 35 is at distance 33 |
| AsciiStrings.PaddedAt | example/edit_distance/AsciiString_impl.h:49-56 | a padded text has the maximum width, holds the text's characters first and 0 after them |
| AsciiStrings.NonZero | example/edit_distance/AsciiString_impl.h:176-184 | dropping the 0 characters leaves a null-free text no longer than the data |
| AsciiStrings.NonZeroAppendZeros | example/edit_distance/AsciiString_impl.h:176-184 | trailing zeros add nothing to the value read back |
| AsciiStrings.NonZeroOfNullFree | example/edit_distance/AsciiString_impl.h:176-184 | a null-free text reads back unchanged |
| AsciiStrings.Fill | example/edit_distance/AsciiString_impl.h:49-56 | the constructor's two loops leave the text followed by zeros up to the maximum width |
| AsciiStrings.NewPublic | example/edit_distance/AsciiString_impl.h:18-58 | the public constructor throws runtime_error exactly when the text is wider than maxWidth; otherwise the data is the padded text, public, with the text length as known size |
| AsciiStrings.NewSecret | example/edit_distance/AsciiString_impl.h:61-101 | the secret constructor throws exactly when the text is too wide; otherwise the data is the padded text, secret, with no known size |
| AsciiStrings.Lengths | example/edit_distance/AsciiString_impl.h:24-31 | the known sizes of a batch are the lengths of its strings, in order |
| AsciiStrings.NewBatch | example/edit_distance/AsciiString_impl.h:21-39 | the batch constructor throws exactly when some string is too wide; otherwise column i holds character i of every string, 0 past its end, and a public batch knows the lengths |
| AsciiStrings.FirstZero | example/edit_distance/AsciiString_impl.h:142-145 | the letter index stops at the first 0 character, or at the width when there is none |
| AsciiStrings.OpenToParty | example/edit_distance/AsciiString_impl.h:113-150 | opening keeps the characters, makes the string public, and sets the known size to the position of the first 0 |
| AsciiStrings.GetValue | example/edit_distance/AsciiString_impl.h:175-185 | getValue collects the characters with every 0 dropped |
| AsciiStrings.GetBatchValue | example/edit_distance/AsciiString_impl.h:156-174 | batch getValue gives one text per batch index: the non-zero characters of that index across the columns |
| AsciiStrings.PrivateSize | example/edit_distance/AsciiString_impl.h:201-241 | privateSize is at most the width |
| AsciiStrings.PrivateSizeIsNonZeroLength | example/edit_distance/AsciiString_impl.h:225-237 | the counting mux loop gives the number of non-zero characters |
| AsciiStrings.PaddedRoundTrip | example/edit_distance/AsciiString_impl.h:18-58 | a string built from a null-free text reads back that text, and its private size is the text's length |
| AsciiStrings.PaddedColumns | example/edit_distance/AsciiString_impl.h:33-39 | a batch has maxWidth columns, column i holding character i of each string |
| AsciiStrings.BatchRoundTrip | example/edit_distance/AsciiString_impl.h:21-39 | word j of a batch built from null-free texts is the padded text j and reads back as that text |
| AsciiStrings.ToUpperCase | example/edit_distance/AsciiString_impl.h:243-275 | toUpperCase moves exactly the characters in 'a'..'z' by 'A' - 'a', into 'A'..'Z', and keeps every other character |
| AsciiStrings.ToUpperCaseIdempotent | example/edit_distance/AsciiString_impl.h:243-275 | upper-casing twice is upper-casing once, and the private size does not change |
| AsciiStrings.ZeroPatternSize | example/edit_distance/AsciiString_impl.h:225-237 | two strings with zeros in the same places have the same private size |
| AsciiStrings.ToLowerCase | example/edit_distance/AsciiString_impl.h:277-281 | toLowerCase always throws runtime_error |
| AsciiStrings.Concat | example/edit_distance/AsciiString_impl.h:283-294 | concat always throws runtime_error |
| AsciiStrings.Mux | example/edit_distance/AsciiString_impl.h:296-319 | mux picks this string on a false choice and the other on a true one, character by character; the result is secret when any operand is |
| Validation.OutcomeSuccessIffRowsEqual | example/edit_distance/Validator.cpp:36-78 | validate returns SUCCESS exactly when the distances are equal, the message counts are equal and the messages agree on every row that has a distance |
| Validation.OutcomeSizeMismatch | example/edit_distance/Validator.cpp:36-54 | SIZE_MISMATCH comes back exactly when the distance counts or the message counts differ, whatever the lengths of the actual vectors |
| Validation.OutcomeSuccessIffEqual | example/edit_distance/Validator.cpp:36-78 | when the actual results have one message per distance, validate succeeds exactly when the two result sets are equal |
| Validation.LeadingDigits | example/edit_distance/Validator.cpp:87-92 | the digit run read by the stream is all digits and stops at the first non-digit |
| Validation.LeadingSpaces | example/edit_distance/Validator.cpp:87-92 | the stream skips exactly the leading isspace characters: blank, tab, newline, vertical tab, form feed and carriage return |
| Validation.ParseInt64 | example/edit_distance/Validator.cpp:87-92 | `iss >> parsed` into an int64 always yields a value in the int64 range |
| Validation.Decimal | example/edit_distance/Validator.cpp:87-92 | the decimal text of a number is a non-empty run of digits |
| Validation.DecimalValue | example/edit_distance/Validator.cpp:87-92 | the digits of a number's decimal text read back as that number |
| Validation.ParseDecimal | example/edit_distance/Validator.cpp:87-92 | an int64 written in decimal, with a minus sign when negative, parses back to itself |
| Validation.Validator.AppendOutputLine | example/edit_distance/Validator.cpp:81-98 | each "distance" cell adds its parsed int64 to the expected distances, each "receiver_message" cell adds its text to the expected messages, other columns add nothing, in column order |
| Validation.Validator.Validate | example/edit_distance/Validator.cpp:36-78 | validate returns the reference outcome: SIZE_MISMATCH exactly when a count differs, and SUCCESS exactly when the results are equal when the actual results have one message per distance |
| Validation.DistanceCells | example/edit_distance/Validator.cpp:84-95 | a line contributes at most one distance per column |
| Validation.MessageCells | example/edit_distance/Validator.cpp:84-97 | a line contributes at most one message per column |
| Validation.OneRowPerLine | example/edit_distance/Validator.cpp:81-98 | a line with one distance and one message column adds exactly one row: the parsed distance and the message text as written |
| IntArith.BitsToNatSnoc | fbpcf/mpc_framework/frontend/Int_impl.h:518-561 | appending a most significant bit adds its weight 2^\|s\| |
| IntArith.MsbSplit | fbpcf/mpc_framework/frontend/Int_impl.h:518-561 | a bit vector's value is its low bits' value plus the weight of its top bit |
| IntArith.SignedSplit | fbpcf/mpc_framework/frontend/Int_impl.h:550-558 | as a signed width-bit number the top bit weighs -2^(width-1) |
| IntArith.SignedOfWrapped | fbpcf/mpc_framework/frontend/Int_impl.h:550-558 | bits whose unsigned value is x mod 2^width read, signed, as x wrapped into the signed width-bit range |
| IntArith.SignedOffset | fbpcf/mpc_framework/frontend/Int_impl.h:550-558 | the unsigned and the signed reading of a bit vector differ by 0 or 2^width |
| IntArith.SignedSumCongruent | fbpcf/mpc_framework/frontend/Int_impl.h:106 | signed and unsigned sums and differences agree modulo 2^width, which is why one adder serves both (also line 134) |
| IntArith.AddLowBits | fbpcf/mpc_framework/frontend/Int_impl.h:109-117 | the ripple-carry loop over bits 0..width-2 gives the low bits of the sum, with the carry as the next bit |
| IntArith.AddTop | fbpcf/mpc_framework/frontend/Int_impl.h:118-119 | the top bit (the carry xor the two top bits) completes the sum modulo 2^width |
| IntArith.Add | fbpcf/mpc_framework/frontend/Int_impl.h:102-121 | operator+ as written: for width >= 2 the bits hold the sum modulo 2^width, read signed or unsigned; for width 1 the result is the OR of the bits |
| IntArith.WidthOneCounterexample | fbpcf/mpc_framework/frontend/Int_impl.h:109-119 | at width 1, 1 + 1 gives 1 instead of 0, and 0 - 1 gives 0 instead of 1 |
| IntArith.AddAnyWidth | fbpcf/mpc_framework/frontend/Int_impl.h:102-121 | the corrected adder gives the sum modulo 2^width at every width, read signed or unsigned |
| IntArith.SubLowBits | fbpcf/mpc_framework/frontend/Int_impl.h:137-151 | the borrow loop over bits 0..width-2 gives the low bits of the difference, with the borrow as the next bit |
| IntArith.SubTop | fbpcf/mpc_framework/frontend/Int_impl.h:152-153 | the top bit completes the difference modulo 2^width |
| IntArith.Sub | fbpcf/mpc_framework/frontend/Int_impl.h:130-155 | operator- as written: for width >= 2 the bits hold the difference modulo 2^width; for width 1 the result is a AND NOT b |
| IntArith.SubAnyWidth | fbpcf/mpc_framework/frontend/Int_impl.h:130-155 | the corrected subtractor gives the difference modulo 2^width at every width |
| IntArith.LessStep | fbpcf/mpc_framework/frontend/Int_impl.h:189-193 | one step of the comparison loop: the new carry says whether the low i+1 bits of a are below those of b |
| IntArith.SignedLessStep | fbpcf/mpc_framework/frontend/Int_impl.h:195-197 | the top step of a signed comparison, where the top bit counts negative |
| IntArith.LowBitsLess | fbpcf/mpc_framework/frontend/Int_impl.h:189-193 | after the loop the carry says whether the low width-1 bits of a are below those of b |
| IntArith.LessTop | fbpcf/mpc_framework/frontend/Int_impl.h:194-202 | the final step with the sign-dependent top bit decides a < b on the signed or unsigned values |
| IntArith.LessThan | fbpcf/mpc_framework/frontend/Int_impl.h:178-203 | operator< is true exactly when the value of a is below the value of b |
| IntArith.LessOrEqual | fbpcf/mpc_framework/frontend/Int_impl.h:205-217 | operator<= is true exactly when a <= b |
| IntArith.GreaterThan | fbpcf/mpc_framework/frontend/Int_impl.h:219-231 | operator> is true exactly when a > b |
| IntArith.GreaterOrEqual | fbpcf/mpc_framework/frontend/Int_impl.h:233-245 | operator>= is true exactly when a >= b |
| IntArith.Mux | fbpcf/mpc_framework/frontend/Int_impl.h:276-296 | mux picks this integer on a false choice and the other on a true one, bit by bit |
| IntArith.ProcessSingleInputRange | fbpcf/mpc_framework/frontend/Int_impl.h:420-465 | processSingleInput accepts exactly [-2^(width-1), 2^(width-1)) for signed and [0, 2^width) for unsigned, throwing runtime_error otherwise; an accepted value is kept as its residue mod 2^width |
| IntArith.ConvertIntToBits | fbpcf/mpc_framework/frontend/Int_impl.h:467-478 | convertPublicIntToBits extracts bit i of the value into position i, for i below width |
| IntArith.PublicInput | fbpcf/mpc_framework/frontend/Int_impl.h:67-79 | the public constructor fails exactly when processSingleInput rejects the value; otherwise the width bits read back as the value |
| IntArith.InputRoundTrip | fbpcf/mpc_framework/frontend/Int_impl.h:420-478 | an accepted input converted to bits reads back, signed or unsigned, as the input |
| IntArith.ConvertBitsToInt | fbpcf/mpc_framework/frontend/Int_impl.h:544-560 | the scalar convertBitsToInt gives the unsigned value of the bits, or the signed value when the type is signed |
| IntArith.AddLsb | fbpcf/mpc_framework/frontend/Int_impl.h:383-401 | addLsb throws runtime_error exactly when the sizes differ, and otherwise adds each bit to its entry |
| IntArith.Column | fbpcf/mpc_framework/frontend/Int_impl.h:520-531 | the batch column k collects the k-th value of every bit position |
| IntArith.ConvertBatchBitsToInt | fbpcf/mpc_framework/frontend/Int_impl.h:520-543 | the batched convertBitsToInt fails exactly when the bit positions have different batch sizes; otherwise entry k is the value of column k |
| BitStrings.TransposeVector | fbpcf/frontend/BitString_impl.h:269-286 | transposeVector throws out_of_range on an empty input (src.at(0)), runtime_error when an inner vector has a different length, and otherwise returns rst[j][i] = src[i][j] |
| BitStrings.TransposedShape | fbpcf/frontend/BitString_impl.h:273-276 | the transpose of a rectangular n-by-m input has m rows of length n |
| BitStrings.TransposeTwice | fbpcf/frontend/BitString_impl.h:269-286 | transposing a rectangular input with non-empty rows twice gives the input back |
| BitStrings.NewBatch | fbpcf/frontend/BitString_impl.h:18-35 | the batched constructor fails exactly on an empty or ragged input and otherwise stores one bit per position holding the transposed batch |
| BitStrings.GetBatchValue | fbpcf/frontend/BitString_impl.h:78-91 | the batched getValue transposes the stored bits back, failing on an empty or ragged store |
| BitStrings.BatchRoundTrip | fbpcf/frontend/BitString_impl.h:18-35 | a batch with non-empty entries read back with getValue is the constructor input (also lines 78-91) |
| BitStrings.EmptyEntriesDoNotRoundTrip | fbpcf/frontend/BitString_impl.h:18-35 | a batch of empty strings transposes to no bits at all, so getValue cannot return it (also lines 78-91) |
| BitStrings.Not | fbpcf/frontend/BitString_impl.h:105-116 | operator! negates every bit |
| BitStrings.And | fbpcf/frontend/BitString_impl.h:118-135 | operator& throws runtime_error exactly when the lengths differ and otherwise ANDs bit by bit |
| BitStrings.Xor | fbpcf/frontend/BitString_impl.h:137-154 | operator^ throws runtime_error exactly when the lengths differ and otherwise XORs bit by bit |
| BitStrings.SlowMux | fbpcf/frontend/BitString_impl.h:169-190 | slowMux, computing a_i ^ (c & (b_i ^ a_i)), throws on a length mismatch and otherwise picks this string on a false choice and the other on a true one |
| BitStrings.FastMux | fbpcf/frontend/BitString_impl.h:192-221 | fastMux, which ANDs the choice into the xor of the two strings and xors this string back in, has the same error case and the same result as slowMux |
| BitStrings.BatchingWith | fbpcf/frontend/BitString_impl.h:223-248 | batchingWith throws when any other string has a different length, and otherwise bit i is this batch followed by bit i of every other string in order |
| WireKeeping.WithFreshKeys | fbpcf/scheduler/WireKeeper.cpp:122-151 | after allocating a list of wires the live ids are the old ones plus the new ones |
| WireKeeping.WithRecordsAt | fbpcf/scheduler/WireKeeper.cpp:18-40 | recording a list of fresh wires adds exactly those ids and leaves every other record unchanged |
| WireKeeping.WithRecordsPush | fbpcf/scheduler/WireKeeper.cpp:18-40 | allocating one more fresh wire extends the recorded map by that wire alone |
| WireKeeping.FreshRecords | fbpcf/scheduler/WireKeeper.cpp:18-40 | a freshly allocated wire holds its value and level with reference count 1 (also lines 122-151) |
| WireKeeping.ValuesOf | fbpcf/scheduler/WireKeeper.cpp:42-50 | reading a list of live wires gives their stored values in order |
| WireKeeping.AllocateFresh | fbpcf/scheduler/WireKeeper.cpp:18-40 | an id at or above every live id is not live, and allocating it grows the store by one |
| WireKeeping.RetainTimes | fbpcf/scheduler/WireKeeper.cpp:86-94 | n increases raise a live wire's reference count by n and change nothing else |
| WireKeeping.ReleaseTimes | fbpcf/scheduler/WireKeeper.cpp:96-110 | n decreases of a wire whose count exceeds n lower it by n and change nothing else |
| WireKeeping.BalancedReferenceCounting | fbpcf/scheduler/WireKeeper.cpp:86-110 | after n increases, n decreases restore the store; one more decrease of a count-1 wire frees it |
| WireKeeping.ReleaseFreesAtZero | fbpcf/scheduler/WireKeeper.cpp:96-110 | decreaseReferenceCount frees the wire exactly when its count was 1, otherwise lowers it by one, and touches no other wire |
| WireKeeping.ReleaseSize | fbpcf/scheduler/WireKeeper.cpp:96-110 | a decrease shrinks the live set by one exactly when it frees the wire, and never adds a wire |
| WireKeeping.WireKeeper.constructor | fbpcf/scheduler/WireKeeper.cpp:18-40 | a new keeper has no wires and both statistics counters at 0 |
| WireKeeping.WireKeeper.GetWireStatistics | fbpcf/scheduler/IScheduler.h:370-373 | allocated wires = deallocated wires + wires still live |
| WireKeeping.WireKeeper.AllocateBooleanValue | fbpcf/scheduler/WireKeeper.cpp:18-28 | allocateBooleanValue stores a fresh record (value, level, refcount 1), leaves the other stores alone and increments wiresAllocated |
| WireKeeping.WireKeeper.AllocateIntegerValue | fbpcf/scheduler/WireKeeper.cpp:30-40 | the same for integer wires |
| WireKeeping.WireKeeper.AllocateBatchBooleanValue | fbpcf/scheduler/WireKeeper.cpp:122-135 | the same for boolean batch wires, which also record expectedBatchSize |
| WireKeeping.WireKeeper.AllocateBatchIntegerValue | fbpcf/scheduler/WireKeeper.cpp:137-151 | the same for integer batch wires |
| WireKeeping.WireKeeper.GetBooleanValue | fbpcf/scheduler/WireKeeper.cpp:42-45 | reading a freed or unknown boolean wire throws runtime_error |
| WireKeeping.WireKeeper.GetIntegerValue | fbpcf/scheduler/WireKeeper.cpp:47-50 | reading a freed or unknown integer wire throws runtime_error |
| WireKeeping.WireKeeper.GetBatchBooleanValue | fbpcf/scheduler/WireKeeper.cpp:153-156 | reading a freed or unknown boolean batch wire throws runtime_error |
| WireKeeping.WireKeeper.GetBatchIntegerValue | fbpcf/scheduler/WireKeeper.cpp:158-161 | reading a freed or unknown integer batch wire throws runtime_error |
| WireKeeping.WireKeeper.GetFirstAvailableLevel | fbpcf/scheduler/WireKeeper.cpp:64-67 | the level of a freed or unknown boolean wire throws |
| WireKeeping.WireKeeper.GetIntegerFirstAvailableLevel | fbpcf/scheduler/WireKeeper.cpp:69-72 | the level of a freed or unknown integer wire throws |
| WireKeeping.WireKeeper.GetBatchFirstAvailableLevel | fbpcf/scheduler/WireKeeper.cpp:199-202 | the level of a freed or unknown boolean batch wire throws |
| WireKeeping.WireKeeper.GetBatchIntegerFirstAvailableLevel | fbpcf/scheduler/WireKeeper.cpp:204-207 | the level of a freed or unknown integer batch wire throws |
| WireKeeping.WireKeeper.GetBatchSize | fbpcf/scheduler/WireKeeper.cpp:112-115 | the batch size of a freed or unknown boolean batch wire throws |
| WireKeeping.WireKeeper.GetIntegerBatchSize | fbpcf/scheduler/WireKeeper.cpp:117-120 | the batch size of a freed or unknown integer batch wire throws |
| WireKeeping.WireKeeper.SetBooleanValue | fbpcf/scheduler/WireKeeper.cpp:52-56 | setBooleanValue throws on a dead wire; otherwise a later get returns the new value, the level is kept and no other wire or counter changes |
| WireKeeping.WireKeeper.SetIntegerValue | fbpcf/scheduler/WireKeeper.cpp:58-62 | the same for integer wires |
| WireKeeping.WireKeeper.SetBatchBooleanValue | fbpcf/scheduler/WireKeeper.cpp:173-186 | the same for boolean batch wires, whatever the size of the new vector |
| WireKeeping.WireKeeper.SetBatchIntegerValue | fbpcf/scheduler/WireKeeper.cpp:188-197 | the same for integer batch wires: a size different from expectedBatchSize is only logged and the value is stored anyway |
| WireKeeping.WireKeeper.SetFirstAvailableLevel | fbpcf/scheduler/WireKeeper.cpp:74-78 | setFirstAvailableLevel throws on a dead wire; otherwise a later get returns the new level, the value is kept and nothing else changes |
| WireKeeping.WireKeeper.SetIntegerFirstAvailableLevel | fbpcf/scheduler/WireKeeper.cpp:80-84 | the same for integer wires |
| WireKeeping.WireKeeper.SetBatchFirstAvailableLevel | fbpcf/scheduler/WireKeeper.cpp:209-214 | the same for boolean batch wires |
| WireKeeping.WireKeeper.SetBatchIntegerFirstAvailableLevel | fbpcf/scheduler/WireKeeper.cpp:216-221 | the same for integer batch wires |
| WireKeeping.WireKeeper.IncreaseReferenceCount | fbpcf/scheduler/WireKeeper.cpp:86-89 | increaseReferenceCount adds 1 to a live wire's count, throws on a dead one, and changes nothing else |
| WireKeeping.WireKeeper.IncreaseIntegerReferenceCount | fbpcf/scheduler/WireKeeper.cpp:91-94 | the same for integer wires |
| WireKeeping.WireKeeper.IncreaseBatchReferenceCount | fbpcf/scheduler/WireKeeper.cpp:223-226 | the same for boolean batch wires |
| WireKeeping.WireKeeper.IncreaseBatchIntegerReferenceCount | fbpcf/scheduler/WireKeeper.cpp:228-231 | the same for integer batch wires |
| WireKeeping.WireKeeper.DecreaseReferenceCount | fbpcf/scheduler/WireKeeper.cpp:96-102 | decreaseReferenceCount lowers a live wire's count, frees it when the count reaches 0 and increments wiresDeallocated exactly then; throws on a dead wire |
| WireKeeping.WireKeeper.DecreaseIntegerReferenceCount | fbpcf/scheduler/WireKeeper.cpp:104-110 | the same for integer wires |
| WireKeeping.WireKeeper.DecreaseBatchReferenceCount | fbpcf/scheduler/WireKeeper.cpp:233-240 | the same for boolean batch wires |
| WireKeeping.WireKeeper.DecreaseBatchIntegerReferenceCount | fbpcf/scheduler/WireKeeper.cpp:242-249 | the same for integer batch wires |
| WireKeeping.RaiseTimes | fbpcf/mpc_framework/scheduler/test/WireKeeperTest.cpp:121-130 | n increases of a single count-1 wire leave it live with count 1 + n and do not touch the statistics |
| WireKeeping.LowerTimes | fbpcf/mpc_framework/scheduler/test/WireKeeperTest.cpp:132-141 | n decreases from 1 + n bring the wire back to count 1, still live, statistics untouched |
| WireKeeping.BalancedReferenceScenario | fbpcf/mpc_framework/scheduler/test/WireKeeperTest.cpp:121-148 | a wire is still readable after balanced increases and decreases; one more decrease frees it, a read then throws and the statistics are (1, 1) |
| WireKeeping.AllocateBooleans | fbpcf/scheduler/WireKeeper.cpp:18-28 | repeated allocateBooleanValue calls give one fresh wire per value, holding it at the given level with count 1 |
| WireKeeping.AllocateBatchBooleans | fbpcf/scheduler/WireKeeper.cpp:122-135 | the same for batch wires |
| GateKeeping.OutputLevel | fbpcf/scheduler/gate_keeper/GateKeeper.h:161-168 | getOutputLevel is at least max(maxInputLevel, firstUnexecutedLevel) and lands on a free (even) level exactly for a free gate |
| GateKeeping.OutputLevelIsLeastAdmissible | fbpcf/scheduler/gate_keeper/GateKeeper.h:161-168 | getOutputLevel is the least level of the gate's parity that is at or above max(maxInputLevel, firstUnexecutedLevel), or one above it for a non-free gate |
| GateKeeping.TestAddAndRemoveGatesLevels | fbpcf/scheduler/gate_keeper/test/GateKeeperTest.cpp:61-96 | the test's levels: inputs at 0, AND at 1, XOR at 2, outputs at 3, an AND over an output at 5, with level 4 left empty |
| GateKeeping.Empties | fbpcf/scheduler/gate_keeper/GateKeeper.h:135-137 | the padding getLevel appends is a run of empty buckets |
| GateKeeping.ParityRespectedIff | fbpcf/scheduler/gate_keeper/GateKeeper.h:161-168 | the recursive parity invariant (bucket k holds only gates whose freeness matches level first + k) equals its quantified form |
| GateKeeping.PaddedParity | fbpcf/scheduler/gate_keeper/GateKeeper.h:134-140 | padding the deque with empty buckets keeps the parity invariant |
| GateKeeping.ScheduledParity | fbpcf/scheduler/gate_keeper/GateKeeper.h:142-147 | appending a gate whose freeness matches its level keeps the parity invariant |
| GateKeeping.TotalGatesAppend | fbpcf/scheduler/gate_keeper/GateKeeper.h:142-147 | the number of queued gates is additive over concatenated deques |
| GateKeeping.ScheduledShape | fbpcf/scheduler/gate_keeper/GateKeeper.h:134-147 | addGate leaves the deque long enough for the level's offset and raises the queued count by exactly 1 |
| GateKeeping.MaxLevelOf | fbpcf/scheduler/gate_keeper/GateKeeper.h:181-193 | the maximum level of a non-empty wire list is at least every wire's level and equal to one of them |
| GateKeeping.MaxLevel | fbpcf/scheduler/gate_keeper/GateKeeper.h:170-193 | getMaxLevel throws runtime_error exactly on an empty list and otherwise returns the maximum level |
| GateKeeping.GateKeeper.constructor | fbpcf/scheduler/gate_keeper/GateKeeper.cpp:20-21 | a new gate keeper has an empty deque, firstUnexecutedLevel 0 and no queued gates |
| GateKeeping.GateKeeper.GetLevel | fbpcf/scheduler/gate_keeper/GateKeeper.h:134-140 | getLevel extends the deque with empty buckets until offset level - firstUnexecutedLevel is valid, changing nothing else |
| GateKeeping.GateKeeper.AddGate | fbpcf/scheduler/gate_keeper/GateKeeper.h:142-147 | addGate appends the gate to its level's bucket and increments numUnexecutedGates by 1 |
| GateKeeping.GateKeeper.InputGate | fbpcf/scheduler/gate_keeper/GateKeeper.cpp:23-39 | inputGate allocates one wire holding the value at the free output level above firstUnexecutedLevel and queues an input gate there; the gate's constructor takes a reference to its output (count 2) and skips its two empty inputs, so the wire keeper's store is GateStore of the old one with no inputs |
| GateKeeping.GateKeeper.InputGateBatch | fbpcf/scheduler/gate_keeper/GateKeeper.cpp:41-60 | the same for a batch input, on the batch store |
| GateKeeping.GateKeeper.OutputGate | fbpcf/scheduler/gate_keeper/GateKeeper.cpp:62-81 | outputGate allocates its wire at the non-free level after the source wire's level and queues the gate there; the output's count is 2 and a non-empty source gains one reference |
| GateKeeping.GateKeeper.OutputGateBatch | fbpcf/scheduler/gate_keeper/GateKeeper.cpp:83-103 | the same for a batch output, on the batch store |
| GateKeeping.GateKeeper.NormalGateOf | fbpcf/scheduler/gate_keeper/GateKeeper.cpp:105-120 | normalGate places its output wire and gate at the output level for the gate's freeness above both inputs' levels; the output's count is 2 and each non-empty input gains one reference per occurrence (an input used as both left and right gains two) |
| GateKeeping.GateKeeper.NormalGateBatch | fbpcf/scheduler/gate_keeper/GateKeeper.cpp:122-137 | the same for batch wires, on the batch store |
| GateKeeping.GateKeeper.CompositeGateOf | fbpcf/scheduler/gate_keeper/GateKeeper.cpp:139-159 | compositeGate throws on an empty right list and changes nothing; otherwise it allocates one output wire per right input, all at the same level with count 2, takes a reference to the left input and to each right input, and queues one gate |
| GateKeeping.GateKeeper.CompositeGateBatch | fbpcf/scheduler/gate_keeper/GateKeeper.cpp:161-182 | the same for batch wires, on the batch store |
| GateKeeping.GateKeeper.BatchingUp | fbpcf/scheduler/gate_keeper/GateKeeper.cpp:184-197 | batchingUp throws on an empty list and changes nothing; otherwise it allocates one batch wire with count 2 on the free level above all inputs, takes a reference to each input, and queues a rebatching gate |
| GateKeeping.GateKeeper.Unbatching | fbpcf/scheduler/gate_keeper/GateKeeper.cpp:199-215 | unbatching allocates one output wire per strategy entry, with count 2, on a free level, takes a reference to the source wire and queues an unbatching gate |
| GateKeeping.GateKeeper.PopFirstUnexecutedLevel | fbpcf/scheduler/gate_keeper/GateKeeper.cpp:221-227 | popFirstUnexecutedLevel returns the front bucket, whose gates all match the level's parity, drops it, increments firstUnexecutedLevel and subtracts the bucket size from the queued count |
| GateKeeping.GateKeeper.HasReachedBatchingLimit | fbpcf/scheduler/gate_keeper/GateKeeper.cpp:229-231 | the batching limit is reached exactly when more than 100000 gates are queued |
| GateKeeping.AllocateWires | fbpcf/scheduler/gate_keeper/GateKeeper.cpp:139-159 | n output wires of a composite gate are fresh, at the same level, with count 1 |
| GateKeeping.AllocateBatchWires | fbpcf/scheduler/gate_keeper/GateKeeper.cpp:199-215 | the same for batch wires |
| GateKeeping.RetainWires | fbpcf/scheduler/gate_keeper/NormalGate.h:45-47 | the constructor's increaseReferenceCount calls apply RetainAll to the Boolean store and change no other store or counter |
| GateKeeping.GateWires | fbpcf/scheduler/gate_keeper/CompositeGate.h:35-41 | a gate holds its outputs and its inputs, in the order its constructor takes references: the outputs sit at their own positions as non-empty wires |
| GateKeeping.GateStoreCounts | fbpcf/scheduler/gate_keeper/NormalGate.h:45-47 | once a gate is built the live wires are the old ones plus its outputs; each output's count is one above its allocation count (the wire keeper's and the gate's reference), and every other wire's count rises by the number of times the gate takes it as an input (also CompositeGate.h lines 35-41) |
| GateKeeping.WireBoolGate | fbpcf/scheduler/gate_keeper/NormalGate.h:30-48 | allocating a normal gate's output and constructing the gate leaves the Boolean store at GateStore: the fresh output with count 2, each non-empty input one reference up, wiresAllocated up by 1 |
| GateKeeping.WireBatchGate | fbpcf/scheduler/gate_keeper/BatchNormalGate.h:29-48 | the same for a batch gate's output, on the batch store |
| GateKeeping.WireBoolGates | fbpcf/scheduler/gate_keeper/CompositeGate.h:22-42 | allocating a composite gate's n outputs and constructing the gate leaves the Boolean store at GateStore and wiresAllocated up by n |
| GateKeeping.WireBatchGates | fbpcf/scheduler/gate_keeper/BatchCompositeGate.h:20-34 | the same for a batch composite gate, or an unbatching gate, on the batch store |
| MpcGateKeeping.FirstAvailableLevel | fbpcf/mpc_framework/scheduler/gate_keeper/GateKeeper.cpp:162-218 | getFirstAvailableLevelForNewWire returns a level of the gate's parity that is admissible after both inputs (a free gate may share a free input's level, a non-free gate may not) and not below firstUnexecutedLevel |
| MpcGateKeeping.MinAvailableAdmissible | fbpcf/mpc_framework/scheduler/gate_keeper/GateKeeper.cpp:205-210 | the per-input minimum (+0/+1 after a free level, +1/+2 after a non-free one) is admissible for that input |
| MpcGateKeeping.MinAvailableFirstUnexecutedParity | fbpcf/mpc_framework/scheduler/gate_keeper/GateKeeper.cpp:211-213 | the bound from firstUnexecutedLevel has the gate's parity |
| MpcGateKeeping.AdmissibleLater | fbpcf/mpc_framework/scheduler/gate_keeper/GateKeeper.cpp:162-165 | a later level of the right parity stays admissible |
| MpcGateKeeping.FirstAvailableLevelIsLeast | fbpcf/mpc_framework/scheduler/gate_keeper/GateKeeper.cpp:162-218 | every level that is admissible after both inputs, has the gate's parity and is not below firstUnexecutedLevel is at or above the chosen level |
| MpcGateKeeping.NoLaterThanOutputLevel | fbpcf/mpc_framework/scheduler/gate_keeper/GateKeeper.cpp:162-218 | this rule never places a gate later than the newer gate keeper's getOutputLevel would |
| MpcGateKeeping.RulesDifferOnOddFirstUnexecutedLevel | fbpcf/mpc_framework/scheduler/gate_keeper/GateKeeper.cpp:211-213 | with firstUnexecutedLevel 1 a non-free gate over fresh inputs lands on level 1 here but on level 3 under the newer rule |
| MpcGateKeeping.RightsMaxLevel | fbpcf/mpc_framework/scheduler/gate_keeper/GateKeeper.cpp:176-191 | the right inputs' maximum level bounds every right wire's level and is 0 or one of them |
| MpcGateKeeping.MpcGateKeeper.constructor | fbpcf/mpc_framework/scheduler/gate_keeper/GateKeeper.cpp:17-18 | a new gate keeper has an empty deque, firstUnexecutedLevel 0 and no queued gates |
| MpcGateKeeping.MpcGateKeeper.Place | fbpcf/mpc_framework/scheduler/gate_keeper/GateKeeper.cpp:112-121 | addGate pads the deque to the level, appends the gate there and increments numUnexecutedGates |
| MpcGateKeeping.MpcGateKeeper.PadTo | fbpcf/mpc_framework/scheduler/gate_keeper/GateKeeper.cpp:117-119 | padding appends empty buckets until the level's offset is valid and changes nothing else |
| MpcGateKeeping.MpcGateKeeper.AddNormalGate | fbpcf/mpc_framework/scheduler/gate_keeper/GateKeeper.cpp:20-65 | input, output and normal gates allocate one wire holding the initial value at the first available level, with count 2, take a reference to each non-empty input and queue the gate there (also lines 105-160) |
| MpcGateKeeping.MpcGateKeeper.AddNormalGateBatch | fbpcf/mpc_framework/scheduler/gate_keeper/GateKeeper.cpp:29-36 | the same for batch wires, on the batch store (also lines 49-58, 67-72, 105-160) |
| MpcGateKeeping.MpcGateKeeper.AddCompositeGate | fbpcf/mpc_framework/scheduler/gate_keeper/GateKeeper.cpp:74-79 | a composite gate allocates one output wire per right input, all at the first available level with count 2, takes a reference to the left input and each right input, and queues one gate (also lines 105-160) |
| MpcGateKeeping.MpcGateKeeper.AddCompositeGateBatch | fbpcf/mpc_framework/scheduler/gate_keeper/GateKeeper.cpp:81-87 | the same for batch wires, on the batch store (also lines 105-160) |
| MpcGateKeeping.MpcGateKeeper.PopFirstUnexecutedLevel | fbpcf/mpc_framework/scheduler/gate_keeper/GateKeeper.cpp:93-99 | pop returns the front bucket, whose gates match the level's parity, drops it, advances firstUnexecutedLevel and subtracts the bucket size from the count |
| MpcGateKeeping.MpcGateKeeper.HasReachedBatchingLimit | fbpcf/mpc_framework/scheduler/gate_keeper/GateKeeper.cpp:101-103 | the limit is reached exactly when more than 100000 gates are queued |
| PlaintextScheduling.AndBits | fbpcf/scheduler/PlaintextScheduler.cpp:113-116 | bitwise AND of two batches of one size |
| PlaintextScheduling.XorBits | fbpcf/scheduler/PlaintextScheduler.cpp:219-222 | bitwise XOR of two batches of one size |
| PlaintextScheduling.NotBits | fbpcf/scheduler/PlaintextScheduler.cpp:263-265 | bitwise negation of a batch |
| PlaintextScheduling.AndEach | fbpcf/scheduler/PlaintextScheduler.cpp:300-313 | the composite AND: the left value ANDed with each right value, in order |
| PlaintextScheduling.AndEachBatch | fbpcf/scheduler/PlaintextScheduler.cpp:357-376 | the batched composite AND: the left batch ANDed with each right batch |
| PlaintextScheduling.BatchGateCountIsOutputSize | fbpcf/scheduler/PlaintextScheduler.cpp:357-376 | the counter increase left.size * rights.size equals the number of values the batched composite AND computes |
| PlaintextScheduling.AndLoop | fbpcf/scheduler/PlaintextScheduler.cpp:113-116 | the loop of the batch ANDs computes the bitwise AND (also lines 139-142) |
| PlaintextScheduling.XorLoop | fbpcf/scheduler/PlaintextScheduler.cpp:219-222 | the loop of the batch XOR computes the bitwise XOR |
| PlaintextScheduling.NotLoop | fbpcf/scheduler/PlaintextScheduler.cpp:263-265 | the loop of the batch NOT computes the bitwise negation |
| PlaintextScheduling.UnbatchingInvertsBatchingUp | fbpcf/scheduler/PlaintextScheduler.cpp:316-354 | unbatching the concatenation of some batches by their own sizes gives the batches back |
| PlaintextScheduling.PlaintextScheduler.constructor | fbpcf/scheduler/PlaintextScheduler.cpp:16-19 | a new scheduler starts with both gate counters at 0 |
| PlaintextScheduling.PlaintextScheduler.BooleanInput | fbpcf/scheduler/PlaintextScheduler.cpp:21-26 | the scalar inputs count one free gate and allocate a wire holding the value (also lines 36-40, 48-52) |
| PlaintextScheduling.PlaintextScheduler.BooleanInputBatch | fbpcf/scheduler/PlaintextScheduler.cpp:28-34 | the batch inputs count one free gate per value and allocate a batch wire holding the values (also lines 42-46, 54-58) |
| PlaintextScheduling.PlaintextScheduler.OpenBooleanValueToParty | fbpcf/scheduler/PlaintextScheduler.cpp:60-66 | openBooleanValueToParty counts one non-free gate and copies the value to a new wire |
| PlaintextScheduling.PlaintextScheduler.OpenBooleanValueToPartyBatch | fbpcf/scheduler/PlaintextScheduler.cpp:68-75 | the batch open counts one non-free gate per value and copies the batch |
| PlaintextScheduling.PlaintextScheduler.PrivateAndPrivate | fbpcf/scheduler/PlaintextScheduler.cpp:96-102 | privateAndPrivate counts one non-free gate and stores the AND of the two values |
| PlaintextScheduling.PlaintextScheduler.PrivateAndPublic | fbpcf/scheduler/PlaintextScheduler.cpp:121-127 | the free ANDs count one free gate and store the AND of the two values (also lines 146-150) |
| PlaintextScheduling.PlaintextScheduler.PrivateAndPrivateBatch | fbpcf/scheduler/PlaintextScheduler.cpp:104-119 | privateAndPrivateBatch throws invalid_argument exactly on a size mismatch, counting nothing; otherwise it adds the batch size to nonFreeGates and stores the bitwise AND |
| PlaintextScheduling.PlaintextScheduler.PrivateAndPublicBatch | fbpcf/scheduler/PlaintextScheduler.cpp:129-144 | the free batch ANDs throw on a size mismatch and otherwise add the batch size to freeGates and store the bitwise AND (also lines 152-157) |
| PlaintextScheduling.PlaintextScheduler.PrivateXorPrivate | fbpcf/scheduler/PlaintextScheduler.cpp:201-207 | the XORs count one free gate and store the XOR of the two values (also lines 226-230, 239-243) |
| PlaintextScheduling.PlaintextScheduler.PrivateXorPrivateBatch | fbpcf/scheduler/PlaintextScheduler.cpp:209-224 | the batch XORs throw on a size mismatch and otherwise add the batch size to freeGates and store the bitwise XOR (also lines 232-237, 245-250) |
| PlaintextScheduling.PlaintextScheduler.NotPrivate | fbpcf/scheduler/PlaintextScheduler.cpp:252-256 | the NOTs count one free gate and store the negation (also lines 269-272) |
| PlaintextScheduling.PlaintextScheduler.NotPrivateBatch | fbpcf/scheduler/PlaintextScheduler.cpp:258-267 | the batch NOTs add the batch size to freeGates and store the bitwise negation (also lines 274-277) |
| PlaintextScheduling.PlaintextScheduler.ComputeCompositeAnd | fbpcf/scheduler/PlaintextScheduler.cpp:159-199 | the composite ANDs count one gate per right wire (non-free for private-private) and allocate one wire per right wire holding left AND right_i (also lines 299-313) |
| PlaintextScheduling.PlaintextScheduler.ComputeBatchCompositeAnd | fbpcf/scheduler/PlaintextScheduler.cpp:166-199 | the batch composite ANDs throw invalid_argument at the first right batch of another size, after allocating the earlier outputs; otherwise they add left.size * rights.size to the counter and store left AND right_i per wire (also lines 356-376) |
| PlaintextScheduling.PlaintextScheduler.BatchingUp | fbpcf/scheduler/PlaintextScheduler.cpp:315-331 | batchingUp stores the source batches concatenated in order on one new wire |
| PlaintextScheduling.PlaintextScheduler.Unbatching | fbpcf/scheduler/PlaintextScheduler.cpp:333-354 | unbatching throws exactly when the strategy asks for more values than the batch holds, and otherwise stores consecutive slices, slice i of length strategy[i] |
| PlaintextScheduling.AllocateAnds | fbpcf/scheduler/PlaintextScheduler.cpp:304-311 | the loop of computeCompositeAND allocates, in order, one wire per right wire holding left AND its value |
| PlaintextScheduling.AndValues | fbpcf/scheduler/PlaintextScheduler.cpp:304-311 | the values of that loop are left AND each right wire's value |
| PlaintextScheduling.AllocateBatchAnds | fbpcf/scheduler/PlaintextScheduler.cpp:362-375 | the batch loop fails exactly when some right batch has another size than the left one, and otherwise allocates left AND right_i for each right wire |
| PlaintextScheduling.AndBatches | fbpcf/scheduler/PlaintextScheduler.cpp:362-375 | before allocation the batch loop ANDs the right batches in order until the first one of another size |
| PlaintextScheduling.Flatten | fbpcf/scheduler/PlaintextScheduler.cpp:318-330 | the two loops of batchingUp produce the concatenation of the batches |
| PlaintextScheduling.CopySlice | fbpcf/scheduler/PlaintextScheduler.cpp:347-349 | the inner loop of unbatching copies count values from position from |
| PlaintextScheduling.WithRecordsExtends | fbpcf/scheduler/PlaintextScheduler.cpp:304-311 | allocating fresh wires keeps every old wire record |
| PlaintextScheduling.SumPrefix | fbpcf/scheduler/PlaintextScheduler.cpp:333-354 | the sizes of a strategy prefix add up to at most the total |
| PlaintextScheduling.TotalLengthPrefix | fbpcf/scheduler/PlaintextScheduler.cpp:318-330 | a prefix of the batches and the next batch fit in the total length |
| GateKeeping.RetainOne | fbpcf/scheduler/gate_keeper/NormalGate.h:142-147 | raising the count of a wire, skipping an empty one, keeps the set of live wires (also RebatchingGate.h lines 112-117) |
| GateKeeping.RetainAll | fbpcf/scheduler/gate_keeper/RebatchingGate.h:44-47 | a gate constructor's references keep the set of live wires |
| GateKeeping.RetainAllCounts | fbpcf/scheduler/gate_keeper/RebatchingGate.h:44-47 | after construction each wire's count is up by the number of times the gate names it (also lines 64-67) |
| Rebatching.ReleaseAllCounts | fbpcf/scheduler/gate_keeper/RebatchingGate.h:71-76 | the destructor lowers each wire's count by the number of times the gate names it, without freeing any wire the constructor found live |
| Rebatching.ConstructThenDestroy | fbpcf/scheduler/gate_keeper/RebatchingGate.h:36-76 | constructing and then destroying a gate restores the wire store exactly |
| Rebatching.Ids | fbpcf/scheduler/gate_keeper/RebatchingGate.h:98-101 | the ids of a list of non-empty wires, in order |
| Rebatching.SetAll | fbpcf/scheduler/gate_keeper/RebatchingGate.h:146 | setting values on live wires keeps the set of live wires (also line 157) |
| Rebatching.SetAllAt | fbpcf/scheduler/gate_keeper/RebatchingGate.h:146 | setting values changes only the values of the named wires, never their counts, sizes or levels, and the last write to a wire wins (also line 157) |
| Rebatching.RebatchingBooleanGate.IndividualIds | fbpcf/scheduler/gate_keeper/RebatchingGate.h:98-101 | the individual wire ids, one per individual wire |
| Rebatching.RebatchingBooleanGate.Batch | fbpcf/scheduler/gate_keeper/RebatchingGate.h:33-49 | the batching constructor records its wires, takes a reference to the batch wire and to each non-empty individual wire, reports isBatching and no results (also lines 94-96, 107-109) |
| Rebatching.RebatchingBooleanGate.Unbatch | fbpcf/scheduler/gate_keeper/RebatchingGate.h:51-69 | the unbatching constructor does the same with the strategy recorded and isBatching false (also lines 94-96, 107-109) |
| Rebatching.RebatchingBooleanGate.Destroy | fbpcf/scheduler/gate_keeper/RebatchingGate.h:71-76 | the destructor drops one reference per wire in the constructor's order |
| Rebatching.RebatchingBooleanGate.Compute | fbpcf/scheduler/gate_keeper/RebatchingGate.h:78-89 | compute runs the batching or the unbatching step by the gate type; batching fails only without individual wires, unbatching exactly when the strategy needs more values or more wires than there are |
| Rebatching.RebatchingBooleanGate.ExecuteBatchingGate | fbpcf/scheduler/gate_keeper/RebatchingGate.h:126-147 | executeBatchingGate writes the individual batches concatenated in order to the batch wire and touches nothing else; with no individual wire it throws out_of_range and changes nothing |
| Rebatching.RebatchingBooleanGate.ExecuteUnbatchingGate | fbpcf/scheduler/gate_keeper/RebatchingGate.h:149-159 | executeUnbatchingGate writes consecutive slices of length strategy[i] to individual wire i; at the first slice that runs past the batch or has no wire it throws out_of_range, keeping the slices already written |
| Rebatching.UnbatchedCount | fbpcf/scheduler/gate_keeper/RebatchingGate.h:149-159 | the number of slices written before unbatching stops fits the strategy, the wires and the batch |
| Rebatching.UnbatchingFailsIff | fbpcf/scheduler/gate_keeper/RebatchingGate.h:149-159 | unbatching throws exactly when the strategy's total exceeds the batch or it has more entries than there are individual wires |
| Rebatching.UnbatchedCountStops | fbpcf/scheduler/gate_keeper/RebatchingGate.h:151-156 | unbatching stops early only at a slice without a wire or one that runs past the batch |
| Rebatching.SetBatchValues | fbpcf/scheduler/gate_keeper/RebatchingGate.h:157 | the loop of setBatchBooleanValue calls writes the values in order |
| GateKeeping.RetainBatchWires | fbpcf/scheduler/gate_keeper/RebatchingGate.h:44-47 | the constructor's loop of increaseBatchReferenceCount calls applies RetainAll to the batch store and changes no other store or counter |
| Rebatching.ReleaseWires | fbpcf/scheduler/gate_keeper/RebatchingGate.h:72-75 | the destructor's loop of decreases applies ReleaseAll |
| Rebatching.ReleaseAllPrefix | fbpcf/scheduler/gate_keeper/RebatchingGate.h:72-75 | if releasing all wires succeeds, releasing any prefix of them succeeds |
| TupleGeneration.MakeTuple | fbpcf/engine/tuple_generator/ITupleGenerator.h:113-131 | a BooleanTuple packs a, b and c into the low three bits of a byte and getA, getB and getC return them |
| TupleGeneration.MakeCompositeTuple | fbpcf/engine/tuple_generator/ITupleGenerator.h:148-153 | the CompositeBooleanTuple constructor throws invalid_argument exactly when b and c differ in size, and otherwise keeps a, b and c |
| TupleGeneration.TuplesMetricRecorder.constructor | fbpcf/engine/tuple_generator/ITupleGenerator.h:27-34 | a new recorder has all six counters at 0 |
| TupleGeneration.TuplesMetricRecorder.AddTuplesGenerated | fbpcf/engine/tuple_generator/ITupleGenerator.h:36-38 | addTuplesGenerated adds size to the generated count and changes no other counter |
| TupleGeneration.TuplesMetricRecorder.AddTuplesConsumed | fbpcf/engine/tuple_generator/ITupleGenerator.h:40-42 | addTuplesConsumed adds size to the consumed count and changes no other counter |
| TupleGeneration.TuplesMetricRecorder.AddCompositeTuplesWithoutExpansionRequested | fbpcf/engine/tuple_generator/ITupleGenerator.h:44-49 | a request without expansion adds count to the composite counter and count * size to the mini-tuple counter |
| TupleGeneration.TuplesMetricRecorder.AddCompositeTuplesRequiringExpansionRequested | fbpcf/engine/tuple_generator/ITupleGenerator.h:51-56 | the same for requests that need expansion |
| TupleGeneration.TuplesMetricRecorder.GetMetrics | fbpcf/engine/tuple_generator/ITupleGenerator.h:58-74 | getMetrics reports the counters, the composite total as the sum of the two kinds, and unused = generated - consumed when that does not wrap |
| TupleGeneration.UnusedScenario | fbpcf/engine/tuple_generator/ITupleGenerator.h:36-42 | on a fresh recorder, generating g tuples and consuming c <= g reports g - c unused (also lines 58-63) |
| ShareEngine.SymmetricXorShares | fbpcf/engine/SecretShareEngine.cpp:89-91 | the symmetric XOR of the two parties' shares is a sharing of the XOR of the secrets |
| ShareEngine.AsymmetricXorShares | fbpcf/engine/SecretShareEngine.cpp:109-115 | party 0 XORs in the public value and the others keep their share, so the result shares x ^ p |
| ShareEngine.SymmetricNotShares | fbpcf/engine/SecretShareEngine.cpp:137-139 | the symmetric NOT negates a public value and leaves a two-party sharing of x unchanged |
| ShareEngine.AsymmetricNotShares | fbpcf/engine/SecretShareEngine.cpp:153-159 | only party 0 negates its share, so the result shares !x |
| ShareEngine.FreeAndShares | fbpcf/engine/SecretShareEngine.cpp:178-180 | ANDing each share with a public value shares x & p |
| ShareEngine.SetInput | fbpcf/engine/SecretShareEngine.cpp:48-62 | the owner of an input throws invalid_argument without a value and otherwise masks it with one bit from each of its generators; every other party returns its peer mask |
| ShareEngine.InputShares | fbpcf/engine/SecretShareEngine.cpp:48-62 | with two parties the owner's share and the peer's share XOR to the input |
| ShareEngine.SetBatchInput | fbpcf/engine/SecretShareEngine.cpp:64-87 | the batch input: the owner throws on an empty input and otherwise masks position i with the XOR of mask bit i of every generator; the others return their peer masks |
| ShareEngine.BatchAndSizes | fbpcf/engine/SecretShareEngine.cpp:305-307 | each batch AND uses one triple per element |
| ShareEngine.CompositeAndSizes | fbpcf/engine/SecretShareEngine.cpp:309-311 | each composite AND uses one triple per right value |
| ShareEngine.BatchCompositeAndSizes | fbpcf/engine/SecretShareEngine.cpp:313-316 | each batched composite AND uses left.size * rights.size triples |
| ShareEngine.BeaverTriple | fbpcf/engine/SecretShareEngine.cpp:415-425 | Beaver recombination: with a valid triple (c = a & b shared) and the opened d = x ^ a, e = y ^ b, the shares c ^ (d & b) ^ (e & a), plus d & e on party 0 only, XOR to x & y |
| ShareEngine.OffsetEnds | fbpcf/engine/SecretShareEngine.cpp:354-392 | the plain, batch, composite and batched composite ANDs take consecutive ranges of the triples, ending at tupleCount |
| ShareEngine.CountTuples | fbpcf/engine/SecretShareEngine.cpp:303-316 | tupleCount = #ands + the batch sizes + the composite rights + left * rights of each batched composite AND |
| ShareEngine.OpenAnds | fbpcf/engine/SecretShareEngine.cpp:355-359 | the plain ANDs' loop writes pair k masked with triple k |
| ShareEngine.MaskRow | fbpcf/engine/SecretShareEngine.cpp:364-369 | the inner loop over one batch appends the masked pairs, using consecutive triples |
| ShareEngine.MaskCompositeRow | fbpcf/engine/SecretShareEngine.cpp:373-379 | the inner loop of a composite AND masks the left value against each right value |
| ShareEngine.OpenBatchAnds | fbpcf/engine/SecretShareEngine.cpp:361-370 | the batch ANDs' loops continue after the plain ANDs |
| ShareEngine.OpenCompositeAnds | fbpcf/engine/SecretShareEngine.cpp:372-380 | the composite ANDs' loops continue after the batch ANDs |
| ShareEngine.MaskRows | fbpcf/engine/SecretShareEngine.cpp:383-391 | one batched composite AND masks one row per right batch |
| ShareEngine.OpenBatchCompositeAnds | fbpcf/engine/SecretShareEngine.cpp:382-392 | the batched composite ANDs' loops continue after the composite ANDs and end at 2 * tupleCount |
| ShareEngine.ComputeSecretSharesToOpen | fbpcf/engine/SecretShareEngine.cpp:346-395 | computeSecretSharesToOpen gives 2 * tupleCount bits: each scheduled AND's pair masked with its own triple, in queue order |
| ShareEngine.ShareRow | fbpcf/engine/SecretShareEngine.cpp:431-441 | one result loop gives n shares from consecutive triples |
| ShareEngine.BatchAndResults | fbpcf/engine/SecretShareEngine.cpp:427-443 | every batch AND gets one result row from its own triples |
| ShareEngine.CompositeAndResults | fbpcf/engine/SecretShareEngine.cpp:445-460 | every composite AND gets one result per right value from its own triples |
| ShareEngine.ShareRows | fbpcf/engine/SecretShareEngine.cpp:467-481 | one batched composite AND gets m rows of n shares |
| ShareEngine.BatchCompositeAndResults | fbpcf/engine/SecretShareEngine.cpp:462-483 | every batched composite AND gets one row per right batch from its own triples |
| ShareEngine.ComputeExecutionResults | fbpcf/engine/SecretShareEngine.cpp:397-490 | computeExecutionResultsFromOpenedShares computes every scheduled AND's result share from its own triple and opened pair |
| ShareEngine.ComputeAllAnds | fbpcf/engine/SecretShareEngine.cpp:297-344 | computeAllANDsFromScheduledANDs returns empty results and sends nothing when no triple is needed, throws runtime_error when the opened bits are not 2 * tupleCount, and otherwise returns the recombined shares |
| ShareEngine.SameShapeTupleCount | fbpcf/engine/SecretShareEngine.cpp:303-316 | two parties with schedules of the same shape need the same number of triples |
| ShareEngine.BeaverAt | fbpcf/engine/SecretShareEngine.cpp:415-425 | one triple used by both parties on their masked pairs gives shares that XOR to the AND of the secrets |
| ShareEngine.RowCorrect | fbpcf/engine/SecretShareEngine.cpp:427-443 | a row of ANDs evaluated by both parties is correct position by position |
| ShareEngine.CompositeRowCorrect | fbpcf/engine/SecretShareEngine.cpp:445-460 | a composite row evaluated by both parties is correct right value by right value |
| ShareEngine.TwoPartyAnds | fbpcf/engine/SecretShareEngine.cpp:297-344 | after one two-party execution the plain AND results of the two parties XOR to x & y (also lines 415-425) |
| ShareEngine.TwoPartyBatchAnd | fbpcf/engine/SecretShareEngine.cpp:297-344 | batch AND results XOR to the AND of the secrets, element by element (also lines 427-443) |
| ShareEngine.TwoPartyCompositeAnd | fbpcf/engine/SecretShareEngine.cpp:297-344 | composite AND results XOR to left & right_k for every right value (also lines 445-460) |
| ShareEngine.TwoPartyBatchCompositeAnd | fbpcf/engine/SecretShareEngine.cpp:297-344 | batched composite AND results XOR to left[k] & rights[j][k] (also lines 462-483) |
| ShareEngine.PairUp | fbpcf/engine/SecretShareEngine.cpp:254-274 | computeBatchANDImmediately evaluates one plain AND per position of the two batches |
| ShareEngine.SecretShareEngine.constructor | fbpcf/engine/SecretShareEngine.cpp:20-46 | a new engine has empty schedules and no results |
| ShareEngine.SecretShareEngine.BatchSymmetricXor | fbpcf/engine/SecretShareEngine.cpp:93-107 | the batch symmetric XOR throws invalid_argument exactly on a length mismatch, else XORs per position |
| ShareEngine.SecretShareEngine.BatchAsymmetricXor | fbpcf/engine/SecretShareEngine.cpp:117-135 | the batch asymmetric XOR throws on a length mismatch; party 0 XORs per position and the others return the left batch |
| ShareEngine.SecretShareEngine.BatchSymmetricNot | fbpcf/engine/SecretShareEngine.cpp:141-151 | the batch symmetric NOT negates every position |
| ShareEngine.SecretShareEngine.BatchAsymmetricNot | fbpcf/engine/SecretShareEngine.cpp:161-174 | party 0 negates every position and the others return the input |
| ShareEngine.SecretShareEngine.BatchFreeAnd | fbpcf/engine/SecretShareEngine.cpp:182-196 | the batch free AND throws on a length mismatch, else ANDs per position |
| ShareEngine.SecretShareEngine.ScheduleAnd | fbpcf/engine/SecretShareEngine.cpp:200-203 | scheduleAND queues the pair and returns the number of plain ANDs queued before it |
| ShareEngine.SecretShareEngine.ScheduleBatchAnd | fbpcf/engine/SecretShareEngine.cpp:205-213 | scheduleBatchAND throws runtime_error on a length mismatch, changing nothing, and otherwise queues the batches and returns their index |
| ShareEngine.SecretShareEngine.ScheduleCompositeAnd | fbpcf/engine/SecretShareEngine.cpp:215-220 | scheduleCompositeAND queues the left value with its right values and returns its index |
| ShareEngine.SecretShareEngine.ScheduleBatchCompositeAnd | fbpcf/engine/SecretShareEngine.cpp:222-237 | scheduleBatchCompositeAND throws when a right batch differs in length from the left one and otherwise queues them and returns the index |
| ShareEngine.SecretShareEngine.ExecuteScheduledAnd | fbpcf/engine/SecretShareEngine.cpp:241-252 | executeScheduledAND evaluates every queued AND, stores the results and clears all four queues |
| ShareEngine.SecretShareEngine.ComputeBatchAndImmediately | fbpcf/engine/SecretShareEngine.cpp:254-274 | computeBatchANDImmediately throws on a length mismatch and otherwise returns the recombined shares of the two batches evaluated at once |
| ShareEngine.SecretShareEngine.GetAndExecutionResult | fbpcf/engine/SecretShareEngine.cpp:278-280 | getANDExecutionResult returns result index, or out_of_range past the end |
| ShareEngine.SecretShareEngine.GetBatchAndExecutionResult | fbpcf/engine/SecretShareEngine.cpp:282-285 | the same for batch AND results |
| ShareEngine.SecretShareEngine.GetCompositeAndExecutionResult | fbpcf/engine/SecretShareEngine.cpp:287-290 | the same for composite AND results |
| ShareEngine.SecretShareEngine.GetBatchCompositeAndExecutionResult | fbpcf/engine/SecretShareEngine.cpp:292-295 | the same for batched composite AND results |
| Communication.ShiftInBit | fbpcf/engine/communication/IPartyCommunicationAgent.h:162-163 | shifting the accumulator left and XORing in a bit puts that bit at position 0 and moves every older bit up by one |
| Communication.ShiftOutBit | fbpcf/engine/communication/IPartyCommunicationAgent.h:180 | shifting right by one moves bit m + 1 down to bit m |
| Communication.PadShift | fbpcf/engine/communication/IPartyCommunicationAgent.h:166 | after the padding shift byte << (8 - n) the n accumulated bits sit at the top, oldest first, with zeros below |
| Communication.PackStep | fbpcf/engine/communication/IPartyCommunicationAgent.h:161-164 | each inner-loop step keeps the byte holding the last i bits read |
| Communication.PadStep | fbpcf/engine/communication/IPartyCommunicationAgent.h:166 | padding a byte that holds the last i bits moves them to the most significant end, in order |
| Communication.PadByte | fbpcf/engine/communication/IPartyCommunicationAgent.h:159-167 | the stored byte carries the next bits from start on, most significant bit first, then zeros |
| Communication.AppendPacked | fbpcf/engine/communication/IPartyCommunicationAgent.h:158-168 | appending the next packed byte keeps every earlier packed bit correct and adds the next eight |
| Communication.PackByte | fbpcf/engine/communication/IPartyCommunicationAgent.h:159-166 | the inner loop reads min(8, remaining) bits, advancing bitIndex to start + 8 or the end of the input |
| Communication.CompressToBytes | fbpcf/engine/communication/IPartyCommunicationAgent.h:151-170 | compressToBytes yields ceil(n/8) bytes in which bit k of the input is bit 7 - k%8 of byte k/8 and every padding bit is 0 |
| Communication.UnpackStep | fbpcf/engine/communication/IPartyCommunicationAgent.h:178-181 | each inner-loop step reads the current low bit, which is bit 7 - j of the original byte counted from the most significant end |
| Communication.UnpackByte | fbpcf/engine/communication/IPartyCommunicationAgent.h:178-181 | the inner loop writes exactly the eight bits of one byte, most significant first, and no other position |
| Communication.DecompressToBits | fbpcf/engine/communication/IPartyCommunicationAgent.h:173-185 | decompressToBits gives 8 bits per byte, most significant bit first |
| Communication.ReceiveBool | fbpcf/engine/communication/IPartyCommunicationAgent.h:101-107 | receiveBool reads ceil(size/8) bytes and keeps the first size unpacked bits |
| Communication.SendReceiveBool | fbpcf/engine/communication/IPartyCommunicationAgent.h:83-86 | the bits sent with sendBool come back unchanged from receiveBool for the same size (also lines 101-107) |
| Communication.SameBits | fbpcf/engine/communication/IPartyCommunicationAgent.h:173-185 | a byte is determined by its eight bits, so decompression loses nothing |
| Communication.PacksUnique | fbpcf/engine/communication/IPartyCommunicationAgent.h:151-170 | each bit vector has exactly one correct packing |
| Communication.SumRepeat | fbpcf/engine/communication/IPartyCommunicationAgent.h:125-129 | n elements of size w take w * n bytes |
| Communication.SendT | fbpcf/engine/communication/IPartyCommunicationAgent.h:120-123 | sendT sends bool vectors packed, byte vectors as they are, and other vectors as their elements' bytes concatenated, sizeof(T) * n bytes in all (also lines 192-201) |
| Communication.ReceiveT | fbpcf/engine/communication/IPartyCommunicationAgent.h:125-129 | receiveT reads sizeof(T) * n bytes and cuts them into n elements, or unpacks n bits, or returns the bytes (also lines 203-211) |
| Communication.SendReceiveT | fbpcf/engine/communication/IPartyCommunicationAgent.h:120-129 | what sendT sends, receiveT with the same type and count gives back (also lines 192-211) |
| Communication.TrafficRecorder.constructor | fbpcf/engine/communication/IPartyCommunicationAgent.h:34 | a new recorder counts no traffic |
| Communication.TrafficRecorder.AddSentData | fbpcf/engine/communication/IPartyCommunicationAgent.h:41-43 | addSentData adds to the sent counter modulo 2^64 and leaves the received counter alone |
| Communication.TrafficRecorder.AddReceivedData | fbpcf/engine/communication/IPartyCommunicationAgent.h:45-47 | addReceivedData adds to the received counter modulo 2^64 and leaves the sent counter alone |
| EngineUtil.Or | fbpcf/engine/util/util.h:48 | _mm_or_si128 sets each of the 128 bits that is set in either operand |
| EngineUtil.AndNot | fbpcf/engine/util/util.h:80 | _mm_andnot_si128(a, b) keeps the bits of b that are clear in a |
| EngineUtil.GetLsb | fbpcf/engine/util/util.h:27-29 | getLsb returns bit 0 of the 128-bit value |
| EngineUtil.TopBit | fbpcf/engine/util/util.h:31-33 | the top bit of a bit string is its value divided by the weight of that bit, which is what the shift by 7 of byte 15 computes |
| EngineUtil.GetMsb | fbpcf/engine/util/util.h:31-33 | getMsb returns bit 127 |
| EngineUtil.SlliEpi64 | fbpcf/engine/util/util.h:43 | _mm_slli_epi64 shifts each 64-bit lane left: bit p of a lane is bit p - k of the same lane, zero below k, and every bit is zero for a count above 63 (also line 45) |
| EngineUtil.SrliEpi64 | fbpcf/engine/util/util.h:47 | _mm_srli_epi64 shifts each 64-bit lane right: bit p of a lane is bit p + k of the same lane while that is inside the lane, zero above, and every bit is zero for a count above 63 |
| EngineUtil.SlliSi128By8 | fbpcf/engine/util/util.h:42 | _mm_slli_si128(v, 8) moves the low 64 bits to the top and clears the low 64 bits (also line 46) |
| EngineUtil.LShiftIsShift | fbpcf/engine/util/util.h:39-50 | lShiftByBitsInPlace, both branches, is the 128-bit left shift: bit i of the result is bit i - offset of the source and zero below offset |
| EngineUtil.SetLsbTo0 | fbpcf/engine/util/util.h:79-81 | setLsbTo0 clears bit 0 and keeps bits 1 to 127 |
| EngineUtil.SetLsbTo1 | fbpcf/engine/util/util.h:83-85 | setLsbTo1 sets bit 0 and keeps bits 1 to 127 |
| EngineUtil.BytesBitsAt | fbpcf/engine/util/util.h:87-105 | bit 8i + j of the byte string is bit j of byte i |
| EngineUtil.BuildM128i | fbpcf/engine/util/util.h:87-105 | buildM128i puts src[i] at byte i, so bit 8i + j of the value is bit j of src[i] |
| EngineUtil.ExtractLnbToVector | fbpcf/engine/util/util.h:60-77 | extractLnbToVector throws runtime_error, changing nothing, when the vector holds more than 128 bits, and otherwise sets data[i] to bit i of the value, the low lane first and then the high lane |
| PlaintextInt.Wrap | fbpcf/mpc_std_lib/util/Intp_impl.h:89-98 | the width-bit reading of any integer is in [kMin, kMax] |
| PlaintextInt.Validate | fbpcf/mpc_std_lib/util/Intp_impl.h:43 | the constructor accepts exactly the values in [kMin, kMax], unchanged, and throws runtime_error on any other (also lines 101-116) |
| PlaintextInt.NativeSizePow | fbpcf/mpc_std_lib/util/Intp_impl.h:23-38 | the native type chosen for a width has 8, 16, 32 or 64 bits, at least the width, and equal to it exactly at those four widths |
| PlaintextInt.GuardedIff | fbpcf/mpc_std_lib/util/Intp_impl.h:119-121 | the overflow guard of add and subtract applies exactly to signed widths that fill their native type (also lines 137-139) |
| PlaintextInt.Bounds | fbpcf/mpc_std_lib/util/Intp_impl.h:78-80 | [kMin, kMax] holds exactly 2^width values, all representable in the native type |
| PlaintextInt.OffsetValue | fbpcf/mpc_std_lib/util/Intp_impl.h:86-87 | kOffSet is 2^width in the native type; at width 64 it is 0 |
| PlaintextInt.RoundWraps | fbpcf/mpc_std_lib/util/Intp_impl.h:89-98 | round brings any native value within 2^width of the range back to its width-bit reading |
| PlaintextInt.RoundOfNative | fbpcf/mpc_std_lib/util/Intp_impl.h:89-98 | round applied to the native conversion of an exact sum or difference near the range gives its width-bit reading (also lines 127-132) |
| PlaintextInt.AddWraps | fbpcf/mpc_std_lib/util/Intp_impl.h:57-59 | + is addition modulo 2^width at every width and sign, including the uint64_t path of the guarded widths (also lines 118-134) |
| PlaintextInt.SubWrapsPlain | fbpcf/mpc_std_lib/util/Intp_impl.h:73-75 | - is subtraction modulo 2^width when it cannot borrow below the native type (also lines 136-152) |
| PlaintextInt.SubBorrow | fbpcf/mpc_std_lib/util/Intp_impl.h:136-152 | an unsigned subtraction that borrows wraps to a native value beyond reach of round once 2^width is at most a quarter of the native size, and the constructor then throws (also lines 89-98) |
| PlaintextInt.SubWraps | fbpcf/mpc_std_lib/util/Intp_impl.h:73-75 | - is subtraction modulo 2^width, except that an unsigned borrow at such widths throws runtime_error (also lines 136-152) |
| PlaintextInt.NegateKMin | fbpcf/mpc_std_lib/util/Intp_impl.h:62-64 | signed negation keeps kMin, which is -kMin modulo 2^width |
| PlaintextInt.NegateSignedInside | fbpcf/mpc_std_lib/util/Intp_impl.h:65-67 | signed negation of any other value is exact |
| PlaintextInt.NegateSignedWraps | fbpcf/mpc_std_lib/util/Intp_impl.h:61-67 | signed negation is negation modulo 2^width |
| PlaintextInt.NegateUnsigned | fbpcf/mpc_std_lib/util/Intp_impl.h:68-70 | unsigned negation kOffSet - v is negation modulo 2^width, except that -0 is 2^width, out of range, below the native width (also lines 86-87) |
| PlaintextInt.NegateWraps | fbpcf/mpc_std_lib/util/Intp_impl.h:61-71 | unary - is negation modulo 2^width, except that negating an unsigned 0 below the native width throws |
| PlaintextInt.SubFixedWraps | fbpcf/mpc_std_lib/util/Intp_impl.h:136-152 | the corrected subtraction (round applied before the native conversion) is subtraction modulo 2^width at every width |
| PlaintextInt.NegateFixedWraps | fbpcf/mpc_std_lib/util/Intp_impl.h:61-71 | the corrected negation is negation modulo 2^width at every width |
| PlaintextInt.SubBorrowCounterexample | fbpcf/mpc_std_lib/util/Intp_impl.h:136-152 | Intp<false, 6>(3) - Intp<false, 6>(5) throws where 62 is meant |
| PlaintextInt.NegateZeroCounterexample | fbpcf/mpc_std_lib/util/Intp_impl.h:68-70 | -Intp<false, 12>(0) throws where 0 is meant |
| PlaintextInt.ToBits | fbpcf/mpc_std_lib/util/Intp_impl.h:173-181 | the two's-complement representation has exactly width bits |
| PlaintextInt.FillBits | fbpcf/mpc_std_lib/util/Intp_impl.h:174-180 | the loop writes the bits of its value, least significant first, and runs past the end of the vector exactly when the value needs more than width bits |
| PlaintextInt.ConvertToBits | fbpcf/mpc_std_lib/util/Intp_impl.h:173-181 | convertToBits gives the width-bit representation, and writes past the end exactly when the uint64_t widening does not fit |
| PlaintextInt.WritesPastEndIff | fbpcf/mpc_std_lib/util/Intp_impl.h:175-178 | the widening does not fit exactly for negative values at signed widths below 64 |
| PlaintextInt.ConvertToBitsMasked | fbpcf/mpc_std_lib/util/Intp_impl.h:173-181 | the corrected convertToBits, with the widened value masked to width bits, always gives the width-bit representation |
| PlaintextInt.ConvertFromBits | fbpcf/mpc_std_lib/util/Intp_impl.h:160-171 | convertFromBits throws invalid_argument on more than width bits, and otherwise reads them least significant first as a width-bit integer |
| PlaintextInt.BitsRoundTrip | fbpcf/mpc_std_lib/util/Intp_impl.h:160-181 | convertFromBits(convertToBits(v)) == v for every value in range |
| PlaintextInt.BitsRoundTripBack | fbpcf/mpc_std_lib/util/Intp_impl.h:160-181 | reading width bits and writing the value out again gives the same bits |
| PlaintextUint32.ToBits | fbpcf/mpc_std_lib/util/uint32_impl.h:36-44 | the representation of a uint32_t has exactly 32 bits |
| PlaintextUint32.ConvertToBits | fbpcf/mpc_std_lib/util/uint32_impl.h:36-44 | convertToBits writes the 32 bits of src, least significant first, into the 32-element vector |
| PlaintextUint32.ShiftStep | fbpcf/mpc_std_lib/util/uint32_impl.h:39-41 | while bits of src are left the index stays below 32, so the loop never writes past the vector |
| PlaintextUint32.ConvertFromBits | fbpcf/mpc_std_lib/util/uint32_impl.h:23-34 | convertFromBits throws invalid_argument on more than 32 bits and otherwise reads the bits least significant first |
| PlaintextUint32.PaddedBits | fbpcf/mpc_std_lib/util/uint32_impl.h:28-31 | missing high bits count as 0 |
| PlaintextUint32.FromToBits | fbpcf/mpc_std_lib/util/uint32_impl.h:23-44 | convertFromBits(convertToBits(x)) == x |
| PlaintextUint32.ToFromBits | fbpcf/mpc_std_lib/util/uint32_impl.h:23-44 | convertToBits(convertFromBits(bits)) == bits for 32 bits |
| PlaintextUint32.ObliviousSwap | fbpcf/mpc_std_lib/util/uint32_impl.h:109-123 | obliviousSwap returns (src2, src1) when the indicator is set and (src1, src2) otherwise |
| AggregationValues.Wrap32 | fbpcf/mpc_std_lib/util/aggregationValue_impl.h:37-55 | uint32_t arithmetic stays in [0, 2^32) |
| AggregationValues.FromValue | fbpcf/mpc_std_lib/util/aggregationValue_impl.h:33-34 | the explicit constructor keeps the value and sets the count to 1 exactly when the value is positive, 0 exactly when it is 0 |
| AggregationValues.Equal | fbpcf/mpc_std_lib/util/aggregationValue_impl.h:62-65 | operator== holds exactly when both fields agree |
| AggregationValues.AddCommutes | fbpcf/mpc_std_lib/util/aggregationValue_impl.h:37-43 | + is commutative |
| AggregationValues.AddAssociates | fbpcf/mpc_std_lib/util/aggregationValue_impl.h:37-43 | + is associative in 32-bit arithmetic |
| AggregationValues.AddZero | fbpcf/mpc_std_lib/util/aggregationValue_impl.h:37-43 | the zero value is neutral for + |
| AggregationValues.SubThenAdd | fbpcf/mpc_std_lib/util/aggregationValue_impl.h:37-51 | (v1 - v2) + v2 == v1 |
| AggregationValues.SubIsAddNeg | fbpcf/mpc_std_lib/util/aggregationValue_impl.h:45-55 | v1 - v2 == v1 + (-v2) |
| AggregationValues.AddNeg | fbpcf/mpc_std_lib/util/aggregationValue_impl.h:37-43 | v + (-v) is zero (also lines 53-55) |
| AggregationValues.NegNeg | fbpcf/mpc_std_lib/util/aggregationValue_impl.h:53-55 | -(-v) == v |
| AggregationValues.AggregationValueVar.constructor | fbpcf/mpc_std_lib/util/aggregationValue_impl.h:30-31 | the value built from a count and a value holds them |
| AggregationValues.AggregationValueVar.PlusAssign | fbpcf/mpc_std_lib/util/aggregationValue_impl.h:57-60 | += leaves the value v1 + v2 in place |
| AggregationValues.Bits | fbpcf/mpc_std_lib/util/aggregationValue_impl.h:85-90 | the representation has 64 bits |
| AggregationValues.ConvertToBits | fbpcf/mpc_std_lib/util/aggregationValue_impl.h:85-90 | convertToBits is the count's 32 bits followed by the value's 32 bits, least significant first |
| AggregationValues.ConvertFromBits | fbpcf/mpc_std_lib/util/aggregationValue_impl.h:73-83 | convertFromBits throws invalid_argument unless given exactly 64 bits, and otherwise decodes count then value |
| AggregationValues.FromBitsBits | fbpcf/mpc_std_lib/util/aggregationValue_impl.h:73-90 | convertFromBits(convertToBits(v)) == v |
| AggregationValues.BitsFromBits | fbpcf/mpc_std_lib/util/aggregationValue_impl.h:73-90 | convertToBits(convertFromBits(bits)) == bits for 64 bits |
| AggregationValues.RevealFields | fbpcf/mpc_std_lib/util/aggregationValue_impl.h:146-159 | a secret value reveals to the plaintext value of its two 32-bit fields |
| AggregationValues.SecretSub | fbpcf/mpc_std_lib/util/aggregationValue_impl.h:129-135 | the secret operator- reveals to the plaintext difference |
| AggregationValues.SecretMux | fbpcf/mpc_std_lib/util/aggregationValue_impl.h:137-144 | mux selects this value on choice 0 and src on choice 1, field by field |
| AggregationValues.ObliviousSwap | fbpcf/mpc_std_lib/util/aggregationValue_impl.h:219-239 | obliviousSwap returns (src2, src1) when the indicator is set and (src1, src2) otherwise |
| AggregationValues.Counts | fbpcf/mpc_std_lib/util/aggregationValue_impl.h:105-110 | the count column holds each element's count, in order |
| AggregationValues.Values | fbpcf/mpc_std_lib/util/aggregationValue_impl.h:106-114 | the value column holds each element's value, in order |
| AggregationValues.OpenToParty | fbpcf/mpc_std_lib/util/aggregationValue_impl.h:241-261 | openToParty throws runtime_error when the opened columns differ in length and otherwise pairs them up position by position |
| AggregationValues.ColumnsDetermine | fbpcf/mpc_std_lib/util/aggregationValue_impl.h:102-127 | opening the columns of a secret batch gives back the original values (also lines 241-261) |
| AggregationValues.RecoverBatchSharedSecrets | fbpcf/mpc_std_lib/util/aggregationValue_impl.h:178-217 | recoverBatchSharedSecrets throws out_of_range on fewer than 64 entries and otherwise takes entries 0-31 as the count and 32-63 as the value |
| ColumnDefinition.WriteAt | fbpcf/mpc_std_lib/unified_data_process/serialization/IntegerColumn.h:96-100 | writing a column's bytes into a row puts them at the offset and leaves every other byte of the row unchanged |
| ColumnDefinition.WriteAtAppend | fbpcf/mpc_std_lib/unified_data_process/serialization/IntegerColumn.h:96-100 | writing bytes one after another is writing their concatenation |
| ColumnDefinition.ZeroRows | fbpcf/mpc_std_lib/unified_data_process/serialization/RowStructureDefinition.h:142-143 | the write buffers start as one row of rowSize zero bytes per input row |
| ColumnDefinition.WriteBuffers.constructor | fbpcf/mpc_std_lib/unified_data_process/serialization/RowStructureDefinition.h:142-143 | new write buffers hold numRows zero rows of rowSize bytes |
| IntegerColumns.ColumnTypeOf | fbpcf/mpc_std_lib/unified_data_process/serialization/IntegerColumn.h:58-76 | getColumnType gives Int32, Int64 or UInt32 exactly for int32, int64 and uint32 columns, with the column's own sign and width, and throws runtime_error for any other |
| IntegerColumns.ExtractByte | fbpcf/mpc_std_lib/unified_data_process/serialization/IntegerColumn.h:123-130 | extractByte throws invalid_argument exactly when the byte index is past the native type, and otherwise returns byte j of the value, least significant first |
| IntegerColumns.LittleEndianAt | fbpcf/mpc_std_lib/unified_data_process/serialization/IntegerColumn.h:129 | byte j is the value shifted right by 8j, truncated to 8 bits |
| IntegerColumns.FromLittleEndianOf | fbpcf/mpc_std_lib/unified_data_process/serialization/IntegerColumn.h:132-139 | reading back the n bytes written for v gives v modulo 256^n |
| IntegerColumns.LittleEndianOfFrom | fbpcf/mpc_std_lib/unified_data_process/serialization/IntegerColumn.h:123-139 | writing out the value read from bytes gives the same bytes |
| IntegerColumns.LittleEndianMod | fbpcf/mpc_std_lib/unified_data_process/serialization/IntegerColumn.h:129 | the bytes of a value depend only on it modulo 256^n |
| IntegerColumns.ReconstructFromBytes | fbpcf/mpc_std_lib/unified_data_process/serialization/IntegerColumn.h:132-139 | reconstructFromBytes gives the native value whose bytes, least significant first, are the ones at the offset |
| IntegerColumns.ReconstructRoundTrip | fbpcf/mpc_std_lib/unified_data_process/serialization/IntegerColumn.h:96-100 | reading a native value back from the bytes written for it gives the value itself, signed or unsigned (also lines 132-139) |
| IntegerColumns.BytesRoundTrip | fbpcf/mpc_std_lib/unified_data_process/serialization/IntegerColumn.h:123-139 | every byte pattern is written by exactly one native value |
| IntegerColumns.WriteValue | fbpcf/mpc_std_lib/unified_data_process/serialization/IntegerColumn.h:97-99 | the inner loop writes the value's sizeof(NativeType) bytes, little-endian, from the offset on, and nothing else |
| IntegerColumns.Serialize | fbpcf/mpc_std_lib/unified_data_process/serialization/IntegerColumn.h:78-101 | serializeColumnAsPlaintextBytes throws runtime_error, writing nothing, when the value count differs from the row count, and otherwise writes each row's value little-endian at byteOffset |
| IntegerColumns.DeserializeShares | fbpcf/mpc_std_lib/unified_data_process/serialization/IntegerColumn.h:103-120 | deserializeSharesToMPCType reads each row's native value at byteOffset, within the native range |
| IntegerColumns.DecodeEncodedValues | fbpcf/mpc_std_lib/unified_data_process/serialization/IntegerColumn.h:103-112 | shares holding each value's bytes at the offset read back as those values |
| IntegerColumns.DecodeWritten | fbpcf/mpc_std_lib/unified_data_process/serialization/IntegerColumn.h:78-112 | serialising a column and deserialising it at the same offset gives the values back |
| PackedBitFields.Make | fbpcf/mpc_std_lib/unified_data_process/serialization/PackedBitFieldColumn.h:23-32 | the constructor throws runtime_error exactly when given more than eight sub-columns, and otherwise keeps the name and the sub-column names |
| PackedBitFields.PackBits | fbpcf/mpc_std_lib/unified_data_process/serialization/PackedBitFieldColumn.h:64-67 | the inner loop ORs bit j of the pack into bit j of the byte |
| PackedBitFields.Serialize | fbpcf/mpc_std_lib/unified_data_process/serialization/PackedBitFieldColumn.h:54-70 | serializeColumnAsPlaintextBytes sets row i's byte at byteOffset to the packed bits of row i and changes nothing else |
| PackedBitFields.PackedIdempotent | fbpcf/mpc_std_lib/unified_data_process/serialization/PackedBitFieldColumn.h:54-70 | writing the same bit pack twice leaves the rows as writing it once |
| PackedBitFields.Unpacked | fbpcf/mpc_std_lib/unified_data_process/serialization/PackedBitFieldColumn.h:76-78 | the reconstructed shares have one vector per sub-column and one entry per row |
| PackedBitFields.Deserialize | fbpcf/mpc_std_lib/unified_data_process/serialization/PackedBitFieldColumn.h:72-94 | deserializeSharesToMPCType sets sub-column j of row i to bit j of the row's byte at the offset |
| PackedBitFields.UnpackPacked | fbpcf/mpc_std_lib/unified_data_process/serialization/PackedBitFieldColumn.h:64-67 | unpacking a packed byte gives back each of up to eight packed bits (also lines 81-84) |
| PackedBitFields.PackUnpacked | fbpcf/mpc_std_lib/unified_data_process/serialization/PackedBitFieldColumn.h:64-67 | packing the eight bits of a byte gives back the byte (also lines 81-84) |
| PackedBitFields.UnpackedPacked | fbpcf/mpc_std_lib/unified_data_process/serialization/PackedBitFieldColumn.h:54-94 | reading a column back from the bytes it packed gives bitPack[i][j] at sub-column j, row i |
| FixedSizeArrayColumns.VecType | fbpcf/mpc_std_lib/unified_data_process/serialization/FixedSizeArrayColumn.h:39-49 | the inner types UInt32, Int32 and Int64 map to UInt32Vec, Int32Vec and Int64Vec, and any other inner type throws runtime_error |
| FixedSizeArrayColumns.ColumnTypeOf | fbpcf/mpc_std_lib/unified_data_process/serialization/FixedSizeArrayColumn.h:35-50 | getColumnType is the vector type of the inner column's type, and throws when the inner column throws |
| FixedSizeArrayColumns.SizeBytesIs | fbpcf/mpc_std_lib/unified_data_process/serialization/FixedSizeArrayColumn.h:31-33 | getColumnSizeBytes is length times the inner size |
| FixedSizeArrayColumns.EncodedLength | fbpcf/mpc_std_lib/unified_data_process/serialization/FixedSizeArrayColumn.h:59-65 | the array's bytes take length times the inner size |
| FixedSizeArrayColumns.EncodedAt | fbpcf/mpc_std_lib/unified_data_process/serialization/FixedSizeArrayColumn.h:60-64 | element i is written little-endian at i times the inner size |
| FixedSizeArrayColumns.Serialize | fbpcf/mpc_std_lib/unified_data_process/serialization/FixedSizeArrayColumn.h:56-66 | serializeColumnAsPlaintextBytes writes the elements one after another from the start of the array's bytes and changes nothing else in the buffer |
| FixedSizeArrayColumns.DecodedFrom | fbpcf/mpc_std_lib/unified_data_process/serialization/FixedSizeArrayColumn.h:76-82 | the deserialised array has length elements, each with one share per row |
| FixedSizeArrayColumns.DecodedAt | fbpcf/mpc_std_lib/unified_data_process/serialization/FixedSizeArrayColumn.h:76-82 | element i is the inner column read at byteOffset plus i times the inner size |
| FixedSizeArrayColumns.Deserialize | fbpcf/mpc_std_lib/unified_data_process/serialization/FixedSizeArrayColumn.h:68-85 | deserializeSharesToMPCType reads one inner column per element at its offset, in order |
| FixedSizeArrayColumns.DecodeEncoded | fbpcf/mpc_std_lib/unified_data_process/serialization/FixedSizeArrayColumn.h:56-85 | deserialising rows that hold each row's encoded array gives element i of row k at position [i][k] |
| FixedSizeArrayColumns.ElementBytes | fbpcf/mpc_std_lib/unified_data_process/serialization/FixedSizeArrayColumn.h:60-64 | the bytes of element i of an encoded array are that element's little-endian bytes |
| RowStructures.OtherColumn | fbpcf/mpc_std_lib/unified_data_process/serialization/RowStructureDefinition.h:56-92 | an integer or vector definition becomes a column with the definition's name and the definition's size |
| RowStructures.OtherColumnType | fbpcf/mpc_std_lib/unified_data_process/serialization/RowStructureDefinition.h:56-92 | UInt32, Int32 and Int64 definitions become integer columns of that type; vector definitions become arrays of paddingSize elements of the matching type |
| RowStructures.Build | fbpcf/mpc_std_lib/unified_data_process/serialization/RowStructureDefinition.h:27-104 | the constructor throws exactly when the grouping throws, and otherwise holds the grouped columns |
| RowStructures.FoldErr | fbpcf/mpc_std_lib/unified_data_process/serialization/RowStructureDefinition.h:39-97 | once a definition throws, the constructor throws that error |
| RowStructures.GroupedErrIff | fbpcf/mpc_std_lib/unified_data_process/serialization/RowStructureDefinition.h:51-55 | the constructor throws runtime_error exactly when some definition asks for a PackedBitField column directly |
| RowStructures.GroupedShape | fbpcf/mpc_std_lib/unified_data_process/serialization/RowStructureDefinition.h:39-104 | the constructor packs the Bit definitions, in map order, into packed columns of 1 to 8 bits, keeps every other definition as its own column, and so expects exactly one input column per definition |
| RowStructures.GetRowSizeBytes | fbpcf/mpc_std_lib/unified_data_process/serialization/RowStructureDefinition.h:106-114 | getRowSizeBytes is the sum of the columns' sizes |
| RowStructures.RowSizeOfDefinitions | fbpcf/mpc_std_lib/unified_data_process/serialization/RowStructureDefinition.h:39-114 | the row size is the size of every non-Bit definition plus one byte per started group of eight Bit definitions |
| RowStructures.GroupedValid | fbpcf/mpc_std_lib/unified_data_process/serialization/RowStructureDefinition.h:56-92 | every column the constructor builds has a valid width |
| RowStructures.PackedErrorNone | fbpcf/mpc_std_lib/unified_data_process/serialization/RowStructureDefinition.h:288-313 | the packed column's checks pass exactly when every sub-column passes its own |
| RowStructures.BitPack | fbpcf/mpc_std_lib/unified_data_process/serialization/RowStructureDefinition.h:284-313 | the gathered bit pack has one row per write buffer |
| RowStructures.ColumnStep | fbpcf/mpc_std_lib/unified_data_process/serialization/RowStructureDefinition.h:145-171 | serialising one column keeps the number and the length of the rows |
| RowStructures.Applied | fbpcf/mpc_std_lib/unified_data_process/serialization/RowStructureDefinition.h:140-173 | writing the columns one after another keeps numRows rows of the row size |
| RowStructures.AppliedErr | fbpcf/mpc_std_lib/unified_data_process/serialization/RowStructureDefinition.h:145-171 | once a column throws, serialisation throws that error |
| RowStructures.CountExpected | fbpcf/mpc_std_lib/unified_data_process/serialization/RowStructureDefinition.h:122-134 | the expected column count is one per plain column plus the sub-columns of each packed column |
| RowStructures.SerializePackedBitFieldColumn | fbpcf/mpc_std_lib/unified_data_process/serialization/RowStructureDefinition.h:270-319 | serializePackedBitFieldColumn throws runtime_error, writing nothing, for the first sub-column that is missing, not bools, or not one value per row, and otherwise writes row i's packed sub-column bits at byteOffset |
| RowStructures.SerializeArrayColumn | fbpcf/mpc_std_lib/unified_data_process/serialization/RowStructureDefinition.h:166-167 | an array column writes each row's array at byteOffset |
| RowStructures.SerializeColumn | fbpcf/mpc_std_lib/unified_data_process/serialization/RowStructureDefinition.h:149-168 | a packed column goes through serializePackedBitFieldColumn; any other column throws when its name is missing from the data and otherwise serialises itself |
| RowStructures.SerializeDataAsBytesForUDP | fbpcf/mpc_std_lib/unified_data_process/serialization/RowStructureDefinition.h:116-174 | serializeDataAsBytesForUDP checks the column count, then writes every column at the sum of the sizes before it into zeroed rows |
| RowStructures.ColumnStepOk | fbpcf/mpc_std_lib/unified_data_process/serialization/RowStructureDefinition.h:145-171 | a column's step succeeds exactly when its data passes its checks, and then writes its bytes at byteOffset into every row |
| RowStructures.AppliedRows | fbpcf/mpc_std_lib/unified_data_process/serialization/RowStructureDefinition.h:140-173 | applying the columns succeeds exactly when every column's data passes, and then each row is the columns' bytes in order followed by zeros |
| RowStructures.AppliedOk | fbpcf/mpc_std_lib/unified_data_process/serialization/RowStructureDefinition.h:145-171 | applying the columns succeeds exactly when every column's data passes |
| RowStructures.AppliedValues | fbpcf/mpc_std_lib/unified_data_process/serialization/RowStructureDefinition.h:145-171 | with every column accepted, each row holds the columns' bytes, then zeros |
| RowStructures.SerializedRows | fbpcf/mpc_std_lib/unified_data_process/serialization/RowStructureDefinition.h:116-174 | serializeDataAsBytesForUDP succeeds exactly when the data holds as many columns as expected and every column passes, and then gives numRows rows of the row size holding the columns' bytes |
| RowStructures.ConvertFromBits | fbpcf/mpc_std_lib/unified_data_process/serialization/RowStructureDefinition.h:231-249 | convertFromBits ORs up to eight bits, least significant first, into each byte |
| RowStructures.FromBitsLength | fbpcf/mpc_std_lib/unified_data_process/serialization/RowStructureDefinition.h:238-246 | there is one byte per started group of eight bits |
| RowStructures.FromBitsAt | fbpcf/mpc_std_lib/unified_data_process/serialization/RowStructureDefinition.h:238-246 | bit j of byte b is bit 8b + j of the input, and 0 past its end |
| RowStructures.FromBitsToBits | fbpcf/mpc_std_lib/unified_data_process/serialization/RowStructureDefinition.h:231-249 | turning bytes into bits and back gives the bytes |
| RowStructures.Transpose | fbpcf/mpc_std_lib/unified_data_process/serialization/RowStructureDefinition.h:251-268 | transpose of an empty matrix is empty, and otherwise result[c][r] == data[r][c] with one row per column of the input |
| RowStructures.TransposeTwice | fbpcf/mpc_std_lib/unified_data_process/serialization/RowStructureDefinition.h:251-268 | transposing a non-empty rectangle twice gives it back |
| RowStructures.Entries | fbpcf/mpc_std_lib/unified_data_process/serialization/RowStructureDefinition.h:199-218 | each column reads back one entry per name it defines, in order |
| RowStructures.BitColumns | fbpcf/mpc_std_lib/unified_data_process/serialization/RowStructureDefinition.h:183-185 | the MPC share of the rows is a rectangle of bit positions across rows |
| RowStructures.SharedBytesOfRows | fbpcf/mpc_std_lib/unified_data_process/serialization/RowStructureDefinition.h:183-190 | transposing the bit share and converting each row back gives the serialised rows again |
| RowStructures.DeserializeColumn | fbpcf/mpc_std_lib/unified_data_process/serialization/RowStructureDefinition.h:199-220 | one column's values are emplaced under their names: each sub-column of a packed column, or the column itself |
| RowStructures.DeserializeColumns | fbpcf/mpc_std_lib/unified_data_process/serialization/RowStructureDefinition.h:196-221 | the column loop emplaces every column's values read at the sum of the sizes before it |
| RowStructures.DeserializeUDPOutputIntoMPCTypes | fbpcf/mpc_std_lib/unified_data_process/serialization/RowStructureDefinition.h:178-224 | deserializeUDPOutputIntoMPCTypes transposes the shared bits to rows of bytes and reads every column back |
| RowStructures.EmplaceAllKeeps | fbpcf/mpc_std_lib/unified_data_process/serialization/RowStructureDefinition.h:210-217 | emplace never changes a key already present |
| RowStructures.EmplaceAllKeys | fbpcf/mpc_std_lib/unified_data_process/serialization/RowStructureDefinition.h:210-217 | the keys after emplacing are the old ones and the names emplaced |
| RowStructures.EmplaceAllFresh | fbpcf/mpc_std_lib/unified_data_process/serialization/RowStructureDefinition.h:210-217 | emplacing new, distinct names stores each one's value |
| RowStructures.DeserializedKeys | fbpcf/mpc_std_lib/unified_data_process/serialization/RowStructureDefinition.h:196-221 | the names read back are exactly the columns' value names |
| RowStructures.DeserializedAt | fbpcf/mpc_std_lib/unified_data_process/serialization/RowStructureDefinition.h:196-221 | with distinct names, each column's values are found under their names |
| RowStructures.SerializedFits | fbpcf/mpc_std_lib/unified_data_process/serialization/RowStructureDefinition.h:140-173 | the serialised rows have room for every column |
| RowStructures.ColumnSlices | fbpcf/mpc_std_lib/unified_data_process/serialization/RowStructureDefinition.h:140-173 | column k's bytes sit in every serialised row at the sum of the sizes before it |
| RowStructures.RoundTripInteger | fbpcf/mpc_std_lib/unified_data_process/serialization/RowStructureDefinition.h:116-224 | an integer column reads back exactly the values serialised |
| RowStructures.RoundTripBits | fbpcf/mpc_std_lib/unified_data_process/serialization/RowStructureDefinition.h:116-224 | each Bit definition reads back exactly the bits serialised |
| RowStructures.RoundTripArray | fbpcf/mpc_std_lib/unified_data_process/serialization/RowStructureDefinition.h:116-224 | an array column reads back element i of row j at [i][j] |
| RowStructures.ArrayColumnReadBack | fbpcf/mpc_std_lib/unified_data_process/serialization/RowStructureDefinition.h:199-218 | rows holding each row's encoded array at the offset read back every element across the rows |
| UdpEncryptions.ZeroBlock | fbpcf/mpc_std_lib/unified_data_process/data_processor/UdpEncryption.cpp:74 | a default nonce is sixteen zero bytes |
| UdpEncryptions.EmplacedFromEmpty | fbpcf/mpc_std_lib/unified_data_process/data_processor/UdpEncryption.cpp:65-67 | emplacing the requested indexes into an empty map maps each index to the position of its first occurrence and holds nothing else |
| UdpEncryptions.EmplacedInjective | fbpcf/mpc_std_lib/unified_data_process/data_processor/UdpEncryption.cpp:65-67 | the orders the map holds name distinct positions |
| UdpEncryptions.PickOne | fbpcf/mpc_std_lib/unified_data_process/data_processor/UdpEncryption.cpp:89-98 | filing one received row keeps the three cherry-picked vectors the same length |
| UdpEncryptions.Picking | fbpcf/mpc_std_lib/unified_data_process/data_processor/UdpEncryption.cpp:88-99 | processing a batch keeps the three vectors the same length |
| UdpEncryptions.PickingOrder | fbpcf/mpc_std_lib/unified_data_process/data_processor/UdpEncryption.cpp:90-96 | rows filed leave the map; any other entry keeps its order |
| UdpEncryptions.PickingNoThrow | fbpcf/mpc_std_lib/unified_data_process/data_processor/UdpEncryption.cpp:93-95 | with every order inside the vectors, no at() throws |
| UdpEncryptions.PickingSizes | fbpcf/mpc_std_lib/unified_data_process/data_processor/UdpEncryption.cpp:93-95 | filing only overwrites slots; the vectors keep their lengths |
| UdpEncryptions.PickingPlaces | fbpcf/mpc_std_lib/unified_data_process/data_processor/UdpEncryption.cpp:88-99 | every requested row of the batch lands in its slot with the batch's nonce and its own index |
| UdpEncryptions.PickingUntouched | fbpcf/mpc_std_lib/unified_data_process/data_processor/UdpEncryption.cpp:88-99 | a slot no row of the batch is sent to is left as it was |
| UdpEncryptions.PickingStops | fbpcf/mpc_std_lib/unified_data_process/data_processor/UdpEncryption.cpp:88-99 | once a row throws, the later rows are not processed |
| UdpEncryptions.CherryPickedRows | fbpcf/mpc_std_lib/unified_data_process/data_processor/UdpEncryption.cpp:56-101 | after preparation and one batch that starts at index 0, every row asked for sits at the position where it was first asked for |
| UdpEncryptions.UdpEncryption.constructor | fbpcf/mpc_std_lib/unified_data_process/data_processor/UdpEncryption.cpp:16-22 | both sides start idle, with nothing picked |
| UdpEncryptions.UdpEncryption.PrepareToProcessMyData | fbpcf/mpc_std_lib/unified_data_process/data_processor/UdpEncryption.cpp:24-32 | prepareToProcessMyData throws runtime_error unless my side is idle, and otherwise moves it to inProgress with the new width and key and the offset at 0, leaving the peer side alone |
| UdpEncryptions.UdpEncryption.ProcessMyData | fbpcf/mpc_std_lib/unified_data_process/data_processor/UdpEncryption.cpp:34-54 | processMyData throws runtime_error before preparation and invalid_argument on an empty batch or a wrong width; otherwise it sends the nonce and then each ciphertext, and advances the offset by the batch size |
| UdpEncryptions.UdpEncryption.PrepareToProcessPeerData | fbpcf/mpc_std_lib/unified_data_process/data_processor/UdpEncryption.cpp:56-76 | prepareToProcessPeerData throws runtime_error unless the peer side is idle, and otherwise emplaces each index with its position (an index already present keeps its order), sizes the three vectors and resets the offset |
| UdpEncryptions.UdpEncryption.ProcessPeerData | fbpcf/mpc_std_lib/unified_data_process/data_processor/UdpEncryption.cpp:78-101 | processPeerData throws runtime_error before preparation, and otherwise files every requested row of the batch and advances the offset by dataSize |
| UdpEncryptions.UdpEncryption.GetExpandedKey | fbpcf/mpc_std_lib/unified_data_process/data_processor/UdpEncryption.h:44-53 | getExpandedKey throws runtime_error unless my side is in progress, and otherwise hands out the key and returns my side to idle |
| UdpEncryptions.UdpEncryption.GetProcessedData | fbpcf/mpc_std_lib/unified_data_process/data_processor/UdpEncryption.h:65-75 | getProcessedData throws runtime_error unless the peer side is in progress, and otherwise hands out the three vectors, leaves them empty and returns the peer side to idle |
| AesCircuits.SBoxMatchesTable | fbpcf/mpc_std_lib/aes_circuit/AesCircuit_impl.h:128-204 | the S-box circuit computes the S-box of FIPS-197 (Figure 7) on every byte (also lines 285-353) |
| AesCircuits.InverseSBoxMatchesTable | fbpcf/mpc_std_lib/aes_circuit/AesCircuit_impl.h:206-283 | the inverse S-box circuit computes the inverse S-box of FIPS-197 (Figure 14) on every byte (also lines 285-353) |
| AesCircuits.InverseSBoxOfSBox | fbpcf/mpc_std_lib/aes_circuit/AesCircuit_impl.h:128-283 | the inverse S-box circuit undoes the S-box circuit |
| AesCircuits.SBoxOfInverseSBox | fbpcf/mpc_std_lib/aes_circuit/AesCircuit_impl.h:128-283 | the S-box circuit undoes the inverse S-box circuit, so both are bijections on bytes |
| AesCircuits.MixColumnsMatchesSpec | fbpcf/mpc_std_lib/aes_circuit/AesCircuit_impl.h:356-470 | the exclusive-or network computes MixColumns of FIPS-197 section 5.1.3 on every column |
| AesCircuits.AddRoundKeyInvolution | fbpcf/mpc_std_lib/aes_circuit/AesCircuit_impl.h:28-38 | AddRoundKey with the same key twice gives the block back |
| AesCircuits.SubBytesInvertible | fbpcf/mpc_std_lib/aes_circuit/AesCircuit_impl.h:42-49 | SubBytes is undone byte by byte by the inverse S-box |
| AesCircuits.ShiftRowsOrderFour | fbpcf/mpc_std_lib/aes_circuit/AesCircuit_impl.h:479-495 | four applications of ShiftRows give the block back |
| AesCircuits.ToWords | fbpcf/mpc_std_lib/aes_circuit/AesCircuit_impl.h:88-109 | a vector of 128n bits splits into n blocks |
| AesCircuits.BlockBitsInjective | fbpcf/mpc_std_lib/aes_circuit/AesCircuit_impl.h:111-126 | different blocks have different bits |
| AesCircuits.FromWordsInjective | fbpcf/mpc_std_lib/aes_circuit/AesCircuit_impl.h:111-126 | different sequences of blocks have different bits |
| AesCircuits.FromWordsToWords | fbpcf/mpc_std_lib/aes_circuit/AesCircuit_impl.h:88-126 | convertFromWords(convertToWords(v)) == v for a multiple of 128 bits |
| AesCircuits.ToWordsFromWords | fbpcf/mpc_std_lib/aes_circuit/AesCircuit_impl.h:88-126 | convertToWords(convertFromWords(blocks)) == blocks |
| AesCircuits.ToWordsAt | fbpcf/mpc_std_lib/aes_circuit/AesCircuit_impl.h:97-105 | bit k of byte j of word i of block b is bit 128b + 32i + 8j + k of the vector |
| AesCircuits.FromWordsAt | fbpcf/mpc_std_lib/aes_circuit/AesCircuit_impl.h:116-124 | convertFromWords emits bit k of byte j of word i of block b as bit 128b + 32i + 8j + k |
| AesCircuits.ConvertToWords | fbpcf/mpc_std_lib/aes_circuit/AesCircuit_impl.h:88-109 | convertToWords throws runtime_error exactly when the length is not a multiple of 128, and otherwise splits the bits into blocks |
| AesCircuits.ConvertFromWords | fbpcf/mpc_std_lib/aes_circuit/AesCircuit_impl.h:111-126 | convertFromWords concatenates the blocks' bits |
| AesCircuits.SBoxInPlace | fbpcf/mpc_std_lib/aes_circuit/AesCircuit_impl.h:128-204 | sBoxInPlace replaces the byte's wires by its S-box value |
| AesCircuits.InverseSBoxInPlace | fbpcf/mpc_std_lib/aes_circuit/AesCircuit_impl.h:206-283 | inverseSBoxInPlace replaces the byte's wires by its inverse S-box value |
| AesCircuits.ShiftRowInPlace | fbpcf/mpc_std_lib/aes_circuit/AesCircuit_impl.h:479-495 | the swaps rotate row r of the block left by r words |
| AesCircuits.MixColumnsInPlace | fbpcf/mpc_std_lib/aes_circuit/AesCircuit_impl.h:356-470 | mixColumnsInPlace replaces the column by its MixColumns |
| AesCircuits.InverseMixColumnsInPlace | fbpcf/mpc_std_lib/aes_circuit/AesCircuit_impl.h:472-477 | inverseMixColumnsInPlace applies MixColumns three times |
| AesCircuits.MixPowerThree | fbpcf/mpc_std_lib/aes_circuit/AesCircuit_impl.h:472-477 | three rounds of the loop are MixColumns composed three times |
| AesCircuits.InverseMixColumnsExample | fbpcf/mpc_std_lib/aes_circuit/AesCircuit_impl.h:472-477 | on the FIPS-197 example column db 13 53 45, which MixColumns maps to 8e 4d a1 bc, three more MixColumns give the column back |
| AesCircuits.MapBlocks | fbpcf/mpc_std_lib/aes_circuit/AesCircuit_impl.h:43-62 | one of the loops over the blocks applies the step to every block and to nothing else |
| AesCircuits.AddRoundKeyInPlace | fbpcf/mpc_std_lib/aes_circuit/AesCircuit_impl.h:28-38 | the AddRoundKey loop XORs round key round into every block (also lines 66-76) |
| AesCircuits.AfterRoundAllAt | fbpcf/mpc_std_lib/aes_circuit/AesCircuit_impl.h:41-77 | running the rounds over all blocks runs them on each block |
| AesCircuits.EncryptBlocks | fbpcf/mpc_std_lib/aes_circuit/AesCircuit_impl.h:18-79 | the cipher keeps one block per input block |
| AesCircuits.RoundInPlace | fbpcf/mpc_std_lib/aes_circuit/AesCircuit_impl.h:41-77 | one round is SubBytes, ShiftRows, MixColumns except in round 10, and AddRoundKey, on every block |
| AesCircuits.CipherInPlace | fbpcf/mpc_std_lib/aes_circuit/AesCircuit_impl.h:26-77 | the pre-round and rounds 1 to 10 encipher every block in place |
| AesCircuits.PreRoundAll | fbpcf/mpc_std_lib/aes_circuit/AesCircuit_impl.h:28-38 | the pre-round is AddRoundKey with round key 0 |
| AesCircuits.AllRoundsEncrypt | fbpcf/mpc_std_lib/aes_circuit/AesCircuit_impl.h:41-77 | after round 10 every block is enciphered by AES-128 |
| AesCircuits.EncryptImpl | fbpcf/mpc_std_lib/aes_circuit/AesCircuit_impl.h:18-79 | encrypt_impl throws runtime_error exactly when the plaintext or the key is not a multiple of 128 bits, and otherwise returns the AES-128 encryption of every block with the expanded key |
| AesCircuits.DecryptImpl | fbpcf/mpc_std_lib/aes_circuit/AesCircuit_impl.h:81-86 | decrypt_impl always throws runtime_error |
| AesCtr.FirstFailedCheck | fbpcf/mpc_std_lib/aes_circuit/IAesCircuitCtr.h:48-57 | the checks are taken in order: a length that is not a multiple of 128, then a key other than 1408 bits, then a mask of another length; none fails exactly when all three hold |
| AesCtr.Encrypt | fbpcf/mpc_std_lib/aes_circuit/IAesCircuitCtr.h:44-59 | encrypt throws runtime_error exactly when one of the three checks fails, and otherwise returns encrypt_impl of the plaintext |
| AesCtr.Decrypt | fbpcf/mpc_std_lib/aes_circuit/IAesCircuitCtr.h:71-86 | decrypt makes the same three checks on the ciphertext and otherwise returns encrypt_impl of it |
| AesCtr.DecryptIsEncrypt | fbpcf/mpc_std_lib/aes_circuit/IAesCircuitCtr.h:44-86 | decryption is encryption with the decryption key |
| AesCtr.XorBits | fbpcf/mpc_std_lib/aes_circuit/IAesCircuitCtr.h:16-21 | counter mode XORs the text with the key stream, bit by bit |
| AesCtr.XorBitsInvolution | fbpcf/mpc_std_lib/aes_circuit/IAesCircuitCtr.h:16-21 | XORing with the same key stream twice gives the text back (also line 85) |
| AesCtr.CounterImpl | fbpcf/mpc_std_lib/aes_circuit/IAesCircuitCtr.h:89-92 | a counter-mode encrypt_impl XORs the text with a key stream that depends only on the key and the mask |
| AesCtr.DecryptEncrypt | fbpcf/mpc_std_lib/aes_circuit/IAesCircuitCtr.h:44-86 | decrypting with the same key and mask recovers the plaintext for any counter-mode encrypt_impl |
| Filters.NewSingleValueFilter | fbpcf/mpc_std_lib/oram/encoder/IFilter.h:30-48 | the SingleValueFilter constructor throws invalid_argument exactly for SUBSET_OF and NOT_SUBSET_OF, and otherwise keeps its type, column and value |
| Filters.NewVectorValueFilter | fbpcf/mpc_std_lib/oram/encoder/IFilter.h:88-108 | the VectorValueFilter constructor throws invalid_argument exactly for the six comparison types, and otherwise keeps the type, the column and the set of values |
| Filters.ConstructorsConstruct | fbpcf/mpc_std_lib/oram/encoder/IFilter.h:30-48 | every filter a constructor returns has a type its apply handles (also lines 88-108) |
| Filters.ColumnCheckWrapsAtMaxIndex | fbpcf/mpc_std_lib/oram/encoder/IFilter.h:51-56 | the size check columnIndex_ + 1 wraps to 0 at the largest size_t, so an empty vector passes and the element read is out of range (also lines 111-116) |
| Filters.ColumnCheckBelowMax | fbpcf/mpc_std_lib/oram/encoder/IFilter.h:51-56 | below that index the check passes exactly when the column exists |
| Filters.Apply | fbpcf/mpc_std_lib/oram/encoder/IFilter.h:50-76 | apply throws invalid_argument when the column is missing (the intended check, without the wrap) and otherwise answers for every constructed filter (also lines 110-134) |
| Filters.Negated | fbpcf/mpc_std_lib/oram/encoder/IFilter.h:20 | GT/LTE, LT/GTE, EQ/NEQ and SUBSET_OF/NOT_SUBSET_OF are paired with each other |
| Filters.NegatedFilterAnswersOpposite | fbpcf/mpc_std_lib/oram/encoder/IFilter.h:58-75 | a filter and its negated type answer oppositely on every vector that has the column (also lines 118-133) |
| Filters.ApplyCompares | fbpcf/mpc_std_lib/oram/encoder/IFilter.h:58-75 | a single-value filter compares the column with its value by its operator; a vector filter tests membership in its set (also lines 118-133) |
| Filters.EqualsIsSubsetOfSingleton | fbpcf/mpc_std_lib/oram/encoder/IFilter.h:67-68 | EQ on x and SUBSET_OF {x} agree (also lines 127-129) |
| Lift.Signed | lift/common/LiftMetrics.cpp:29-49 | an int64_t field read as a signed number lies in [-2^63, 2^63), is negative exactly when the top bit is set, and has the stored bits |
| Lift.Add64 | lift/common/LiftMetrics.cpp:29-38 | field addition is addition modulo 2^64 |
| Lift.Xor64Cancels | lift/common/LiftMetrics.cpp:40-49 | XORing a field with the same value twice gives it back |
| Lift.Xor64Commutes | lift/common/LiftMetrics.cpp:40-49 | field XOR is commutative |
| Lift.Add64Associates | lift/common/LiftMetrics.cpp:29-38 | field addition is associative |
| Lift.Equal | lift/common/LiftMetrics.cpp:20-27 | operator== holds exactly when all eight fields agree |
| Lift.PlusCommutes | lift/common/LiftMetrics.cpp:29-38 | + on metrics is commutative |
| Lift.PlusAssociates | lift/common/LiftMetrics.cpp:29-38 | + on metrics is associative, so the aggregation's reduce does not depend on grouping |
| Lift.PlusZero | lift/common/LiftMetrics.cpp:29-38 | the all-zero metrics are neutral for + |
| Lift.XorCancels | lift/common/LiftMetrics.cpp:40-49 | XORing metrics with the same share twice gives them back, so an XOR share decodes |
| Lift.XorCommutes | lift/common/LiftMetrics.cpp:40-49 | ^ on metrics is commutative |
| Lift.Fields | lift/common/LiftMetrics.cpp:61-67 | the metrics have eight fields, in the order of the struct |
| Lift.ToDynamic | lift/common/LiftMetrics.cpp:61-67 | toDynamic has exactly the eight field names as keys, each holding its field |
| Lift.FromDynamic | lift/common/LiftMetrics.cpp:69-82 | fromDynamic throws out_of_range exactly when one of the eight keys is missing, and otherwise reads each field from its key |
| Lift.FieldsInjective | lift/common/LiftMetrics.cpp:20-27 | two metrics with the same fields are equal |
| Lift.FromDynamicToDynamic | lift/common/LiftMetrics.cpp:61-82 | fromDynamic(toDynamic(m)) == m |
| Lift.ToDynamicFromDynamic | lift/common/LiftMetrics.cpp:61-82 | an object that fromDynamic accepts comes back from toDynamic with the same eight keys and values |
| Lift.GroupedFieldwise | lift/aggregator/KAnonymityLiftAggregationGame.h:42-53 | grouped metrics of one shape combine overall with overall and subgroup with subgroup |
| Lift.GroupedXorCancels | lift/aggregator/KAnonymityLiftAggregationGame.h:42-48 | XORing grouped metrics with the same share twice gives them back |
| Lift.GroupedSum | lift/aggregator/KAnonymityLiftAggregationGame.h:52-53 | the sum of a list of grouped metrics of one shape has that shape |
| MetricsMapping.MetricsAt | lift/aggregator/MetricsMapper.cpp:24-39 | the metrics at an index are the eight values from it on, in field order |
| MetricsMapping.Flatten | lift/aggregator/MetricsMapper.cpp:83-93 | the flat vector holds eight values for the overall metrics and eight per subgroup |
| MetricsMapping.Unflatten | lift/aggregator/MetricsMapper.cpp:95-107 | a well-sized vector holds one subgroup per eight values after the first eight |
| MetricsMapping.FlattenBlockAt | lift/aggregator/MetricsMapper.cpp:83-93 | block 0 of the flat vector is the overall metrics and block k is subgroup k - 1 |
| MetricsMapping.UnflattenFlatten | lift/aggregator/MetricsMapper.cpp:83-107 | mapVectorToGroupedLiftMetrics(mapGroupedLiftMetricsToEmpVector(g)) == g |
| MetricsMapping.FlattenInjective | lift/aggregator/MetricsMapper.cpp:83-93 | different grouped metrics flatten to different vectors |
| MetricsMapping.FlattenUnflatten | lift/aggregator/MetricsMapper.cpp:83-107 | flattening the grouped metrics read from a well-sized vector gives the vector back |
| MetricsMapping.GenLiftMetricsFromVector | lift/aggregator/MetricsMapper.cpp:24-39 | genLiftMetricsFromVector reads the eight values from index on in field order and advances index by 8 |
| MetricsMapping.AddLiftMetricsToVector | lift/aggregator/MetricsMapper.cpp:58-69 | addLiftMetricsToEmpVector appends the eight fields in order |
| MetricsMapping.MapGroupedLiftMetricsToVector | lift/aggregator/MetricsMapper.cpp:71-93 | mapGroupedLiftMetricsToEmpVector writes the overall metrics, then each subgroup, and the result reads back as the same grouped metrics |
| MetricsMapping.MapVectorToGroupedLiftMetrics | lift/aggregator/MetricsMapper.cpp:95-121 | mapVectorToGroupedLiftMetrics reads the first eight values as the overall metrics and every further eight as a subgroup, and flattening the result gives the vector back |
| KAnonymity.KAnonymizeShowsOrHides | lift/aggregator/KAnonymityLiftAggregationGame.h:86-106 | metrics with at least 100 buyers are shown unchanged; others keep the two populations and read -1 in every other field |
| KAnonymity.KAnonymizeIdempotent | lift/aggregator/KAnonymityLiftAggregationGame.h:86-106 | anonymizing twice is anonymizing once |
| KAnonymity.PopulationsAlwaysShown | lift/aggregator/KAnonymityLiftAggregationGame.h:96-97 | the populations are never hidden |
| KAnonymity.KAnonymizeGroupedMetrics | lift/aggregator/KAnonymityLiftAggregationGame.h:72-84 | the overall metrics and every subgroup are anonymized on their own |
| KAnonymity.KAnonymizeGrouped | lift/aggregator/KAnonymityLiftAggregationGame.h:72-84 | kAnonymizeGrouped returns a vector of the same size that reads back as the anonymized grouped metrics |
| KAnonymity.AnonymizedBlocks | lift/aggregator/KAnonymityLiftAggregationGame.h:72-84 | block k of the result is block k of the input anonymized |
| KAnonymity.SumVectors | lift/aggregator/KAnonymityLiftAggregationGame.h:52-53 | the reduce over vectors of one length keeps that length |
| KAnonymity.Decoded | lift/aggregator/KAnonymityLiftAggregationGame.h:42-48 | decoding gives one flat vector per input, all of one length |
| KAnonymity.Play | lift/aggregator/KAnonymityLiftAggregationGame.h:38-67 | play decodes the shares, sums them, anonymizes each group and reads the revealed vector as grouped metrics |
| KAnonymity.FlattenFieldwise | lift/aggregator/KAnonymityLiftAggregationGame.h:42-53 | combining flat vectors element by element is flattening the fieldwise combination |
| KAnonymity.SumFlattened | lift/aggregator/KAnonymityLiftAggregationGame.h:52-53 | summing the flat vectors is flattening the grouped sum |
| KAnonymity.DecodedOfShares | lift/aggregator/KAnonymityLiftAggregationGame.h:42-48 | shares whose XOR is the true metrics decode to the flat true metrics |
| KAnonymity.PlayOfShares | lift/aggregator/KAnonymityLiftAggregationGame.h:38-67 | when each input's two shares XOR to the true metrics, play returns the k-anonymized sum of the true metrics |

## Definitions without a contract

These members write one of the source's operations as a plain definition. They carry no contract of their own; the rows named after each one state what they compute.

- EditDistance.AsciiDist (example/edit_distance/EditDistanceCalculator_impl.h:64-67): EditDistance.AsciiDistIsSubstitutionCost and EditDistance.AsciiDistWrapsOnNonAscii.
- EditDistance.CellStep (example/edit_distance/EditDistanceCalculator_impl.h:83-89): EditDistance.CellIsClassicStep.
- EditDistance.Cell (example/edit_distance/EditDistanceCalculator_impl.h:59-91): EditDistance.CellIsClassic and EditDistance.CalculateEditDistance.
- IntArith.ProcessSingleInput (fbpcf/mpc_framework/frontend/Int_impl.h:420-465): IntArith.ProcessSingleInputRange, IntArith.PublicInput and IntArith.InputRoundTrip.
- PlaintextInt.Round (fbpcf/mpc_std_lib/util/Intp_impl.h:89-98): PlaintextInt.RoundWraps.
- PlaintextInt.Add (fbpcf/mpc_std_lib/util/Intp_impl.h:57-59): PlaintextInt.AddWraps.
- PlaintextInt.Sub (fbpcf/mpc_std_lib/util/Intp_impl.h:73-75): PlaintextInt.SubWrapsPlain and PlaintextInt.SubWraps.
- PlaintextInt.Negate (fbpcf/mpc_std_lib/util/Intp_impl.h:61-71): PlaintextInt.NegateWraps.
- PlaintextInt.SubFixed (fbpcf/mpc_std_lib/util/Intp_impl.h:136-152): PlaintextInt.SubFixedWraps.
- PlaintextInt.NegateFixed (fbpcf/mpc_std_lib/util/Intp_impl.h:61-71): PlaintextInt.NegateFixedWraps.
- AggregationValues.Add, AggregationValues.Sub and AggregationValues.Neg (fbpcf/mpc_std_lib/util/aggregationValue_impl.h:37-55): AggregationValues.AddCommutes, AggregationValues.SubIsAddNeg and AggregationValues.NegNeg.
- AggregationValues.FromBits (fbpcf/mpc_std_lib/util/aggregationValue_impl.h:73-83): AggregationValues.ConvertFromBits and AggregationValues.FromBitsBits.
- ShareEngine.SymmetricXor (fbpcf/engine/SecretShareEngine.cpp:89-91): ShareEngine.SymmetricXorShares.
- ShareEngine.AsymmetricXor (fbpcf/engine/SecretShareEngine.cpp:109-115): ShareEngine.AsymmetricXorShares.
- ShareEngine.SymmetricNot (fbpcf/engine/SecretShareEngine.cpp:137-139): ShareEngine.SymmetricNotShares.
- ShareEngine.AsymmetricNot (fbpcf/engine/SecretShareEngine.cpp:153-159): ShareEngine.AsymmetricNotShares.
- ShareEngine.FreeAnd (fbpcf/engine/SecretShareEngine.cpp:178-180): ShareEngine.FreeAndShares.
- EngineUtil.LShiftByBits (fbpcf/engine/util/util.h:39-50): EngineUtil.LShiftIsShift.
- MpcGateKeeping.MinAvailable (fbpcf/mpc_framework/scheduler/gate_keeper/GateKeeper.cpp:205-210): MpcGateKeeping.MinAvailableAdmissible.
- MpcGateKeeping.MinAvailableFirstUnexecuted (fbpcf/mpc_framework/scheduler/gate_keeper/GateKeeper.cpp:211-213): MpcGateKeeping.MinAvailableFirstUnexecutedParity.
- GateKeeping.GateKeeper.GetFirstUnexecutedLevel (fbpcf/scheduler/gate_keeper/GateKeeper.cpp:217-219): a getter of firstUnexecutedLevel, whose changes GateKeeping.GateKeeper.PopFirstUnexecutedLevel states.
- Rebatching.RebatchingBooleanGate.IsBatching and Rebatching.RebatchingBooleanGate.NumberOfResults (fbpcf/scheduler/gate_keeper/RebatchingGate.h:94-109): Rebatching.RebatchingBooleanGate.Batch and Rebatching.RebatchingBooleanGate.Unbatch.
- KAnonymity.KAnonymizeMetrics (lift/aggregator/KAnonymityLiftAggregationGame.h:86-106): KAnonymity.KAnonymizeShowsOrHides and KAnonymity.KAnonymizeIdempotent.
- RowStructures.Serialized (fbpcf/mpc_std_lib/unified_data_process/serialization/RowStructureDefinition.h:116-174): RowStructures.SerializedRows and RowStructures.RoundTripInteger.
- RowStructures.Deserialized (fbpcf/mpc_std_lib/unified_data_process/serialization/RowStructureDefinition.h:196-221): RowStructures.DeserializedAt and RowStructures.RoundTripInteger.
- RowStructures.FromBits (fbpcf/mpc_std_lib/unified_data_process/serialization/RowStructureDefinition.h:231-249): RowStructures.FromBitsToBits.
- AesCircuits.SharedSBox and AesCircuits.SBox (fbpcf/mpc_std_lib/aes_circuit/AesCircuit_impl.h:128-204): AesCircuits.SBoxMatchesTable and AesCircuits.InverseSBoxOfSBox.
- AesCircuits.MixColumns (fbpcf/mpc_std_lib/aes_circuit/AesCircuit_impl.h:356-470): AesCircuits.MixColumnsMatchesSpec.
- AesCircuits.Round and AesCircuits.Cipher (fbpcf/mpc_std_lib/aes_circuit/AesCircuit_impl.h:41-77): AesCircuits.RoundInPlace, AesCircuits.AllRoundsEncrypt and AesCircuits.EncryptImpl.

## Left out

- InverseMixColumnsInPlace: states that it applies MixColumns three times; that this undoes MixColumns is proved only for the example column db 13 53 45 (AesCircuits.InverseMixColumnsExample), not for every column, because the identity M^4 = I over GF(2^8) needs a composition of XOR networks that the solver cannot close.
- EditDistance.CalculateMessage: the distances and costs are unbounded integers, so their 32-bit wrap is not modelled; the doubled threshold is, through EditDistance.DoubledThreshold (threshold = 2^30 doubles to -2^31).
- EditDistance.EditDistanceCorrect: the table cells are unbounded integers, so it holds for the source only while no cell leaves the 32-bit range.
- Validation.OutcomeSuccessIffRowsEqual: requires that when both counts agree, the actual results carry at least one message per distance. Otherwise validate reads past the end of the actual messages, which is undefined behaviour; the builder of the results, which would rule that out, is not part of this model.
- Validation.Validator.Validate: the same requirement as Validation.OutcomeSuccessIffRowsEqual, for the same reason.
- Validation.OutcomeSuccessIffEqual: stated for results with one message per distance, the case the edit-distance example produces.
- PlaintextInt.RoundWraps: signed overflow inside round (undefined behaviour in C++) is taken to wrap around modulo the native size.
- Lift.Add64: signed 64-bit overflow of the metrics' `+` (undefined behaviour in C++) is taken to wrap around modulo 2^64.
- GateKeeping.GateKeeper.constructor: firstUnexecutedLevel and numUnexecutedGates are uint32_t in the source and unbounded naturals here; their wrap at 2^32 is not modelled.
- MpcGateKeeping.MpcGateKeeper.constructor: the same for its uint32_t counters.
- GateKeeping.GateKeeper.PopFirstUnexecutedLevel: the gates it hands out release their references when the caller destroys them after running them. That release is modelled for the rebatching gate (Rebatching.RebatchingBooleanGate.Destroy) and not for normal and composite gates.
- MpcGateKeeping.MpcGateKeeper.AddCompositeGate: the composite gate classes of fbpcf/mpc_framework are not part of this model; their references are taken as in fbpcf/scheduler/gate_keeper/CompositeGate.h and BatchCompositeGate.h, one to each output, then the left input, then each right input, empty wires skipped. The same holds for AddCompositeGateBatch.
- TupleGeneration.TuplesMetricRecorder.GetMetrics: the counters are naturals and only tuplesUnused is reduced modulo 2^64; its ensures gives the plain difference only when nothing wraps.
- UdpEncryptions.UdpEncryption.GetExpandedKey: returns the stored key itself; the AES-128 key expansion the source applies is not modelled.
- IntegerColumns.ValidWidth: accepts every positive multiple of 8, while the source instantiates only 8, 16, 32 and 64 bits; every lemma about the columns is therefore more general than needed. Narrowing it to the four widths makes every proof unfold the power of two at those widths.
- Rebatching.RebatchingBooleanGate.ExecuteUnbatchingGate: requires that the batch wire is not also one of the individual wires. If they were the same wire, the source's reference to the batch value would alias a value that it overwrites; that aliasing is not modelled.
- Rebatching.RebatchingBooleanGate.Compute: the same no-aliasing requirement as ExecuteUnbatchingGate.
- WireKeeping.WireKeeper: a new wire always gets a fresh id, while the source's arena allocator hands out the slot of a freed wire again, so ids can repeat there. The unsafe allocator variant that the scheduler factories can choose is not modelled, and the expected batch size is stored but never checked: setBatchIntegerValue only logs a mismatch, and that log is left out.
- BitString's thin forwarding wrappers over the scheduler calls are not modelled separately; the bit-level content each one produces is.
- PlaintextScheduler forwards reference counting to the wire keeper; only the wire keeper's counting is modelled.
- Inner loops that only build a value with a comprehension are written as one function each, not as loops.
- The composite AND of the plaintext scheduler reads all its right-hand values before it allocates the result wires, while the source interleaves the two. The result is the same because only fresh wires are written.
- IntArith.ProcessSingleInputRange: a negative signed value becomes v + 2^width. For width 64 the C++ cast wraps it to the same 64 low bits, so the bits written agree.
- AesCircuitCtr_impl.h is not part of this model; the size checks of the CTR interface are.
- JSON text (toJson/fromJson via folly) is not modelled; the dynamic object is a map from field names to integers, and non-integer values are left out.
- The MPC types are modelled on values in the clear: a secret value is one party's plaintext, and visibility, reveal, and logging are not modelled.
- idMatch and the other I/O of the games are not modelled.
- KAnonymity.Play: requires at least one input, all of one shape; the reduce over an empty list and inputs of different sizes are not modelled.
- LiftMetrics.h is not part of this model; the metrics have the eight fields that LiftMetrics.cpp compares, adds and converts.
- FixedSizeArrayColumns: the source ships two versions of the column (a three-argument constructor with a pointer-based serializer, and a two-argument construction in the row structure); the model has an inner integer column plus a length and writes each row through the pointer-based serializer.
- UdpEncryptions: UdpEncryption.h and UdpEncryption.cpp differ in the peer-data signature (an indexes parameter, uint64 versus int32); the model follows the .cpp.
- EngineUtil: the AES-NI based generator (getRandomM128iFromSystemNoise and the engine wrapper), loadBytesIntoBignum and the modulus helpers, getLast64Bits and the expander are not modelled.
- EngineUtil.LShiftIsShift: the offset is a natural number; a negative offset is undefined behaviour in the intrinsics.
- Communication: the rows cite fbpcf/engine/communication/IPartyCommunicationAgent.h; they also hold for the copy at fbpcf/mpc_framework/engine/communication/IPartyCommunicationAgent.h, whose bit packing is the same code and whose sendT/receiveT copy the same bytes through memcpy. That copy has no traffic recorder and no sendInt64/receiveInt64, and takes receive's size as an int rather than a size_t, which the model's natural-number sizes do not distinguish.
- Communication: the agent's transport is a parameter; sendInt64/receiveInt64, sendSingleT/receiveSingleT and the traffic statistics beyond the byte counters are not modelled.
- ShareEngine: the key exchange in the SecretShareEngine constructor is not modelled; the parties' random streams are parameters.
- generateFromKey of Intp, uint32 and AggregationValue, which draws from a PRG, is not modelled.
- The MPC adapters' processSecretInputs is not modelled.
- The EncryptedLiftMetrics overloads are not modelled; they follow the plaintext metrics field by field.
- RowStructures: a failed dynamic_cast of a column definition cannot happen in the model, since the column kind is a datatype variant.
- IColumnDefinition.h is not part of this model; the column kinds are taken from the row structure's switch over them.

## Findings

| source | as written | input that shows it | evidently intended | confidence | as-written member | corrected member |
|---|---|---|---|---|---|---|
| example/edit_distance/EditDistanceCalculator_impl.h:64-67 | the letter difference is taken in 8 bits and widened, so a non-ASCII byte gives a wrapped, negative cost | the byte 0xC3 against 'z': cost -73 | the absolute difference of the codes, 183 | not executed | EditDistance.AsciiDistWrapsOnNonAscii | EditDistance.AsciiDistIsSubstitutionCost |
| fbpcf/mpc_framework/frontend/Int_impl.h:109-120 | operator+ always recomputes the most significant bit from the carry, which for width 1 overwrites bit 0 | width 1: 1 + 1 gives 1 | addition modulo 2^width, 1 + 1 = 0 | not executed | IntArith.WidthOneCounterexample | IntArith.AddAnyWidth |
| fbpcf/mpc_framework/frontend/Int_impl.h:137-153 | operator- has the same last step, overwriting bit 0 at width 1 | width 1: 0 - 1 gives 0 | subtraction modulo 2^width, 0 - 1 = 1 | not executed | IntArith.WidthOneCounterexample | IntArith.SubAnyWidth |
| fbpcf/mpc_std_lib/util/Intp_impl.h:136-152 | the borrowed difference wraps to the native type, round subtracts kOffSet only once, and the result is still above kMax, so the constructor throws | Intp<false, 6>(3) - Intp<false, 6>(5) throws | 62, the difference modulo 64 | not executed | PlaintextInt.SubBorrowCounterexample | PlaintextInt.SubFixedWraps |
| fbpcf/mpc_std_lib/util/Intp_impl.h:61-71 | unsigned negation computes kOffSet - v, which is out of range for v = 0 | -Intp<false, 12>(0) throws | 0 | not executed | PlaintextInt.NegateZeroCounterexample | PlaintextInt.NegateFixedWraps |
| fbpcf/mpc_std_lib/util/Intp_impl.h:173-181 | convertToBits widens to uint64 and writes one bit per set bit, so a negative signed value of width below 64 writes past the end of the width-bit result | Intp<true, 8>(-1) | the two's-complement bits of the value in width bits | not executed | PlaintextInt.WritesPastEndIff | PlaintextInt.ConvertToBitsMasked |
| fbpcf/mpc_std_lib/oram/encoder/IFilter.h:51-56 | the bound check compares the size with columnIndex + 1 in size_t, which wraps to 0 for the largest index | an empty breakdown vector and columnIndex = SIZE_MAX passes the check | an invalid_argument for every missing column | not executed | Filters.ColumnCheckWrapsAtMaxIndex | Filters.Apply |
