# libvalkey in Dafny

libvalkey is a C client for Valkey: a reply reader, a command printer, blocking,
asynchronous and cluster clients, and an RDMA transport. This project models the
algorithms and protocols among its parts that keep invariants of their own, and
proves what they are for. Code that works by changing fields, buffers and lists is
a class or a method with loops here; every such method is proved against a
specification function or property that is stated independently of it.

| Part | Modules | Main results |
|---|---|---|
| RESP2/RESP3 reader | `Resp`, `ReplyText`, `Continuation`, `ReplyHeap`, `Reader` | the explicit task stack computes exactly the recursive grammar, whatever the chunk boundaries; and the grammar reads exactly the encodings of replies, written down byte by byte |
| RDMA byte stream | `Rdma` | over all runs of two peers, what a caller is shown is what the other wrote, every byte once and in order, and no assertion fails |
| Decimal to binary64 | `Powers`, `Bits`, `Limbs`, `BigInt`, `Binary64`, `Rounding`, `DigitComparison`, `Halfway`, `Mantissa`, `SlowPath`, `PowersOfFive`, `Product`, `FastPath`, `Swar`, `NumberString`, `NumberText`, `Conversion`, `DoubleItems` | the cut table of powers is precise enough for the fast path to be right without any fallback, for every exponent and every word; from the bytes to the double, every number read is correctly rounded, subnormals and overflow included, and exactly when this is right for the number written |
| Commands | `Bytes`, `Decimal`, `IntPrinter`, `Command`, `Walkers`, `RoutingKey` | three parsers undo the two printers, for every argument vector |
| Quoting | `Quoting` | splitting undoes quoting, for all byte strings |
| Asynchronous context | `EventRuns`, `Async` | over all runs, callbacks calling back included, each command's callback runs once and in order, and a context that ends is freed once its callbacks have returned |
| Cluster retries | `ClusterReplies`, `ClusterExecute`, `ClusterAsync` | bounded transmissions and exactly one delivery, whatever the nodes answer |
| Indexes | `Chains`, `Dict`, `SlotMap`, `Crc16` | the hash table is a finite map, the slot table is the slot ranges, the CRC table is polynomial division |

How the parts are modelled:

- Bytes are integers from 0 to 255, limbs integers below 2^64; wrap-around of 32 and
  64 bits is written out (`RoutingKey.Low32`, `Swar.Wrap64`, `Limbs.Low`). A
  bitwise-or of disjoint bits is an addition, and shifts and masks of words are
  products, quotients and remainders by powers of two; the CRC works on bit vectors.
- Doubles are their bit patterns: `Binary64.V(i)` is the value of pattern `i` in units
  of 2^-1074, the least positive double. The points halfway between doubles (`Mid`)
  and the numbers that are rounded are in units of 2^-1075, so that both kinds of
  points are integers. `RoundsTo` compares with the two halfway points around a
  double, and is proved to be the definition of roundTiesToEven, section 4.3.1 of
  IEEE 754-2019, overflow included.
- The table of powers of five is a function whose entries carry their proofs: exact powers
  of five and two as long numbers, and for the entries that are cut the denominators of two
  neighbouring fractions (from the continued fraction of the entry), which bound how close
  a multiple of the entry comes to a rounding boundary.
- Reply objects, hash table entries and callback cells are numbered cells of a sequence
  rather than objects of their own, so that links are numbers and freed cells are
  marked as freed; following a link to a freed cell is a proof obligation that fails.
- `sprintf` of a length is `Decimal.NatText`, the shortest decimal text; that
  `countDigits` and `digits10` agree with it is proved.
- User callbacks, the network and the other peers are adversaries: runs are arbitrary
  sequences of events (`Async.Run`, `ClusterAsync.Run`, `Rdma.Run`), or the answers are
  an arbitrary function of time (`ClusterExecute.World`).

Where the code does not do what one would expect, the model follows the code:

- The two bytes behind a bulk string's body are skipped without a look at them (`ReplyText.BulkText`).
- A RESP3 boolean is accepted if its one byte is found in the C string "tTfF", which also
  finds the terminator: a NUL byte reads as false (`Resp.IsBoolText`).
- The reader hands an attribute to the caller as a reply of its own.
- A command whose key is found by key count takes the count `argv[k]` as zero when it is
  empty, "0", or starts with "0" and a NUL byte. `RoutingKey.KeyNumByCount` and
  `RoutingKey.KeyNumOfText` state what follows for counts in digits: a zero in more than one
  digit gives a key all the same. `RoutingKey.NulCount` is a command that the NUL byte makes
  keyless.
- The search for the word STREAMS starts behind argument 1 of XREAD and behind argument 4 of
  XREADGROUP, and takes any beginning of the word for it, the empty argument included.
  "XREAD STREAMS key id" is therefore refused, or routed by its id (`RoutingKey.PlainXread`);
  `RoutingKey.KeywordAt` states for which commands the key is found.
- The exponent of a number string stops growing once it has reached 2^28.
  `NumberString.ExpNumberExact` states exactly which exponents are read as written, and
  `NumberString.ExponentCut` is one that is not. A literal of "0.", 2^28 - 1 zeros and
  "1e2684354560" is therefore read as 1 (`Conversion.CutLiteral`). `Conversion.RightForDenoted`
  states exactly when the result is right for the number written all the same, and
  `Conversion.FarOut` that it takes 2^27 digits for a wrong one.
- The comment on the table of powers of five says that they are rounded toward one. The
  entries below 5^-27 are rounded down, away from one, as `PowersOfFive.Good` says.
- Rounding with the truncation flag cuts its shift at 64 bits. `Rounding.TruncatedExactly`
  states for every binary exponent exactly when the result is correctly rounded: from -63
  on, and below that only for 2^63 with nothing cut off. The slow path calls it with
  non-negative exponents.
- A MOVED redirect with a slot from 16384 on, such as "MOVED 16384 h:1", makes the client
  write behind its slot table. `SlotMap.ClusterContext.Moved` reports this, and says what the
  table is in every case.
- The asynchronous cluster client passes NULL to a user callback whenever an error is set
  on the client, also one left behind by another request. `ClusterAsync.StaleError` is a run
  in which a good reply is lost this way, and `ClusterAsync.ClusterAsyncContext.Fire` states
  that a final reply is passed on if and only if no error is set when it arrives.
- While the commands of an asynchronous context time out, new ones are accepted. A callback that
  answers the time-out by sending its command again is called again at once, and the time-out
  handler goes on as long as it does so (`Async.ResendingGoesOn`).
- If a pending slot map request of the blocking cluster client fails at the end of a command, but
  another one succeeds, the command's own error is cleared: the caller gets no reply and no error
  (`ClusterExecute.ClusterContext.Finish`).
- Multiplying a big integer by an empty span leaves it unchanged (`BigInt.Bigint.LongMul`).

## Model

| member | source | states |
|---|---|---|
| Resp.ReplyExtends | src/read.c:294-690 | the grammar's verdict on a prefix, a reply or an error, is its verdict on every longer input: waiting for more bytes never changes a decision |
| ReplyText.ReadsExactly | src/read.c:294-690 | the grammar reads a reply from bytes if and only if these encode it, where the encodings are written down without a parser: the type byte of each kind, lines, lengths, counts with pairs for maps and attributes, the verbatim format, nil in all its forms, nested to any depth |
| ReplyText.Reads | src/read.c:294-690 | every encoding of a reply tree is read as that tree, whatever bytes follow |
| ReplyText.Encoded | src/read.c:294-690 | whatever is read as a reply is one of its encodings |
| ReplyText.RoundTrip | src/read.c:294-690 | printing any reply tree that can be sent and reading the bytes gives the tree |
| ReplyText.StreamReads | src/read.c:824-867 | replies sent one after the other are read in this order, and then what follows them |
| ReplyText.PartWaits | src/read.c:607-690 | on any proper beginning of an encoding the reader waits |
| ReplyText.OtherBytes | src/read.c:607-660 | any byte other than the fourteen type bytes is an error that names it |
| ReplyText.WrongLine | src/read.c:294-413 | a line that encodes nothing gives the error of its kind |
| ReplyText.WrongLength | src/read.c:415-605 | a length or count that is no 64-bit number in shortest digits, or out of range, gives the error for it |
| Continuation.PlugIsNext | src/read.c:265-292 | closing every aggregate that an element completes and going on is the same as finishing the enclosing elements by the recursive grammar |
| Continuation.LeafStep | src/read.c:294-485 | taking a leaf item off the input and moving to the next task keeps the recursive verdict on the whole reply |
| Continuation.HeaderStep | src/read.c:513-605 | so does opening an aggregate, a nil and an empty one included |
| ReplyHeap.SpineClose | src/read.c:265-292 | when the last element of the innermost aggregate is filled, the aggregate's own object is the finished tree of its frame |
| ReplyHeap.SpineAdvance | src/read.c:265-292 | otherwise the filled cell joins the finished ones, in index order, and all later cells are still empty |
| ReplyHeap.ShowsTree | src/valkey.c:116-294 | an object that was filled in shows the caller exactly the reply tree |
| Reader.SeekNewline | src/read.c:143-173 | finds the first CRLF, skipping a CR that is not followed by LF |
| Reader.Reader.Create | src/valkey.c:116-294 | an object is linked into its parent's current cell, which is in range and was empty: no cell is written twice |
| Reader.Reader.MoveToNextTask | src/read.c:265-292 | the loop closes exactly the aggregates that the recursive grammar closes |
| Reader.Reader.LoadLine | src/read.c:294-413 | a line item is the grammar's, with its errors |
| Reader.Reader.LoadBulk | src/read.c:415-485 | so is a bulk item: its length, nil, incomplete bodies and the verbatim format |
| Reader.Reader.LoadHeader | src/read.c:513-605 | so is an aggregate's element count: its limits, nil and doubling for maps and attributes |
| Reader.Reader.ProcessItem | src/read.c:607-690 | an item that succeeds consumes at least a byte and keeps the verdict; one that fails does so with the grammar's error, or is incomplete by the grammar |
| Reader.Reader.Feed | src/read.c:744-764 | appends to the unread bytes, unless an error is set |
| Reader.Reader.GetReadBuf | src/read.c:766-816 | compacts the buffer and loses no unread byte |
| Reader.Reader.CommitRead | src/read.c:818-822 | the bytes read into the buffer become unread bytes |
| Reader.SdsRange | src/sds.c:812-845 | keeps exactly the bytes at the positions of the range, both ends included, where negative ends count from the end of the string and positions outside it are ignored |
| Reader.Reader.GetReply | src/read.c:824-867 | on the bytes since the last reply: the grammar's reply tree, its error, or nothing while it needs more; exactly the reply's bytes are consumed |
| Reader.ReadStream | src/read.c:744-867 | for every stream and every split into chunks, drained after each, the replies and the ending are those of the recursive grammar on the whole stream |
| Rdma.SendKeeps | src/rdma.c:770-801 | a send stays within the credit and both buffers and keeps the stream |
| Rdma.PlaceKeeps | src/rdma.c:770-801 | a remote write hits only the free part of the receive buffer and carries the next bytes of the stream |
| Rdma.ImmKeeps | src/rdma.c:564-569 | handling a write's completion never violates the assertion on its length |
| Rdma.ReadKeeps | src/rdma.c:736-744 | a zero-copy read keeps the stream, and lends only bytes that have arrived |
| Rdma.RegisterKeeps | src/rdma.c:538-562 | a registration arrives only at a writer that has used up its buffer and has nothing in flight |
| Rdma.DoneKeeps | src/rdma.c:760-768 | a buffer is registered again only when everything written was read |
| Rdma.RunKeeps | src/rdma.c:523-850 | the invariant of both streams holds in every state of every run |
| Rdma.Safety | src/rdma.c:523-850 | in every run of two peers: the bytes that a caller is shown by its reads, one after the other, are a prefix of what the other wrote, and are still there when it is done with them; at most one registration is in flight and then the writer's credit is used up and no write is in flight; no assertion or bound is violated |
| Rdma.StepUntouched | src/rdma.c:724-801 | no event at either peer changes bytes that are lent or unread |
| Rdma.UnreadUntouched | src/rdma.c:724-801 | nor does any sequence of events after any run, until the reader says it is done with what it was lent |
| Rdma.Quiescent | src/rdma.c:724-850 | with empty channels and everything read, all that was written was shown and delivered, and there is room to write more |
| Rdma.RdmaContext.Receive | src/rdma.c:453-562 | the context's handler does what the two-peer system's step does, reallocating the send buffer only for another length |
| Rdma.RdmaContext.BeginRead | src/rdma.c:724-758 | so does a zero-copy read: it lends exactly the range that has arrived and was not lent before, and leaves nothing unread |
| Rdma.RdmaContext.EndRead | src/rdma.c:760-768 | so does ending a zero-copy read, which registers a used up buffer |
| Rdma.RdmaContext.WriteBytes | src/rdma.c:770-850 | so does writing: the data or as much of it as there is credit for is copied and announced |
| Binary64.RoundsToIsNearest | src/ffc.h:2324-2426 | comparing with the halfway points is roundTiesToEven: the nearest double, the even one of two, infinity from the halfway point above the largest double on |
| Binary64.RoundingUnique | src/ffc.h:2324-2426 | a number rounds to one double only |
| Binary64.RoundBetween | src/ffc.h:2666-2711 | between a double and the halfway point above the next, one comparison and the parity decide |
| BigInt.ScalarMul | src/ffc.h:1787-1811 | the two words are exactly the product plus carry |
| BigInt.Bigint.SmallAddFrom | src/ffc.h:1814-1834 | adds with carry from a limb on; fails exactly when a 63rd limb would be needed |
| BigInt.Bigint.LargeAddFrom | src/ffc.h:1851-1880 | adds a span at a limb offset; fails exactly when the sum does not fit |
| BigInt.Bigint.LongMul | src/ffc.h:1889-1923 | success means the exact product, for a non-empty span; a product below 2^3968 of a normalized number succeeds |
| BigInt.Bigint.LargeMul | src/ffc.h:1927-1934 | the same, with the short form for one limb |
| BigInt.Bigint.ShlBits | src/ffc.h:2079-2104 | shifting every limb with the bits carried over is multiplying by 2^n |
| BigInt.Bigint.Shl | src/ffc.h:2132-2144 | a shift is a product by 2^(n mod 64), then moves limbs; it fails exactly when it does not fit |
| BigInt.Bigint.Pow5 | src/ffc.h:2179-2202 | success means the value was multiplied by 5^exp; it succeeds whenever the product is below 2^3968 |
| BigInt.Bigint.Pow10 | src/ffc.h:2213-2216 | the same for 10^exp |
| BigInt.LargePower | src/ffc.h:2179-2202 | the table of large powers is 5^135 |
| BigInt.Bigint.Hi64 | src/ffc.h:2016-2054 | the leading 64 bits, and `truncated` exactly when a lower bit is set |
| BigInt.Bigint.BitLength | src/ffc.h:2146-2170 | the bit length of the value |
| BigInt.Bigint.Compare | src/ffc.h:2057-2076 | numeric order, on normalized numbers |
| Rounding.AdjustedMantissa.RoundDown | src/ffc.h:2325-2416 | for every binary exponent: the greatest double not above mantissa * 2^power2, or infinity; subnormals included |
| Rounding.AdjustedMantissa.RoundTieEvenTruncated | src/ffc.h:2336-2420 | every number with these leading 64 bits and this truncation flag is rounded to the nearest double, ties to even, or infinity, if and only if the shift is not cut, or the mantissa is 2^63 with nothing cut off |
| Rounding.AdjustedMantissa.RoundDoubleTieEvenCmp | src/ffc.h:2359-2426 | for every binary exponent: a number between the rounded-down double and the halfway point above the next is rounded to the nearest double, ties to even, given its comparison with the halfway point |
| Rounding.ChopBelow | src/ffc.h:2325-2334 | for every binary exponent, the number lies between the chopped double and the next |
| Rounding.TruncatedExactly | src/ffc.h:2336-2420 | for every binary exponent: rounding a 64-bit window with a truncation flag is correct if and only if power2 >= -63, or the window is 2^63 and nothing is cut off |
| Rounding.ComparedRounds | src/ffc.h:2359-2426 | one comparison with the halfway point and the parity give the nearest double |
| Rounding.ChopValue | src/ffc.h:2325-2334 | for non-negative exponents the double below, the one above and the point halfway are exactly these multiples of 2^power2 |
| Rounding.TruncatedRounds | src/ffc.h:2336-2357 | for non-negative exponents a 64-bit window with a truncation flag rounds as the whole number does, whatever finite double is taken as the largest |
| DigitComparison.PositiveDigitComp | src/ffc.h:2644-2658 | for exponent >= 0: roundTiesToEven of bigmant * 10^exponent |
| DigitComparison.CompareScaled | src/ffc.h:2666-2711 | the two scaled big integers compare as the number and the halfway point do |
| DigitComparison.NegativeDigitComp | src/ffc.h:2666-2711 | for exponent < 0: if rounding down gives a finite b with b <= v below the halfway point above next(b), roundTiesToEven of v, subnormals included |
| Halfway.FivesBelowTwos | src/ffc.h:591 | 5^307 < 2^714, by splitting the powers |
| Halfway.KeyBound | src/ffc.h:591 | 2^54 * 5^1075 < 10^768, the reason why 769 digits are enough |
| Halfway.NoneBetween | src/ffc.h:2491-2641 | no halfway point lies strictly between two neighbours at 769 digits |
| Halfway.StickyDigit | src/ffc.h:2552-2641 | so a number between them rounds as the lower one with a digit 1 appended |
| Mantissa.ReadChunk | src/ffc.h:2530-2641 | up to 19 digits, eight at a time where possible, are their value in one word |
| Mantissa.IsTruncated | src/ffc.h:2491-2528 | true exactly when a digit other than zero is left |
| Mantissa.ParseMantissa | src/ffc.h:2561-2641 | the big integer and digit count are the significant digits cut at the limit, with a sticky 1 exactly when a cut digit was not zero; the ignored failure results never occur |
| SlowPath.ScientificExponent | src/ffc.h:2246-2261 | exponent plus digit count minus one |
| SlowPath.CutRounds | src/ffc.h:2561-2641 | cutting at 769 digits never changes the rounding, for every digit string and exponent |
| SlowPath.DigitComp | src/ffc.h:2715-2733 | the whole slow path returns roundTiesToEven of the literal |
| PowersOfFive.PowerOfFive | src/ffc.h:620-623 | every entry of the table, -342 to 308, is the power of five scaled to 128 bits: exact from 0 to 27, rounded up from -27 to -1, rounded down elsewhere, and there with a certificate of neighbouring fractions |
| Product.MulU64 | src/ffc.h:511-537 | the portable 64 by 64 bit multiplication is exact |
| Product.Apart | src/ffc.h:2822-2825 | from the certificate: no multiple of an entry by a word lies less than 2^64 below a multiple of 2^137 |
| Product.UpperBitsExact | src/ffc.h:2740-2770 | so for every entry and every normalized word, the upper 55 bits of the product computed are those of the exact product |
| Product.ComputeProductApproximation | src/ffc.h:2740-2770 | the two words are the first product where its low bits leave room, and otherwise the whole product cut at 128 bits; in both cases the upper 55 bits are exact |
| Product.NoTies | src/ffc.h:2870-2891 | no multiple of 5^q, q >= 24, is a 54-bit number times a power of two |
| Product.TieDetected | src/ffc.h:2870-2891 | for every exponent: a product is exactly halfway between two doubles if and only if the code's test on the two words says so, and never outside the exponents -4 to 23 |
| FastPath.CountLeadingZeroes | src/ffc.h:495-509 | the number of leading zero bits |
| FastPath.DecimalScaled | src/ffc.h:2772-2791 | the decimal number is the exact product times a power of two whose exponent the multiplication and shift compute |
| FastPath.Leading | src/ffc.h:2816-2837 | the leading 54 bits of w * 10^q with their binary exponent, and exactly whether they are all of it |
| FastPath.Underflows | src/ffc.h:2801-2806 | below 10^-342 every word rounds to zero |
| FastPath.Overflows | src/ffc.h:2807-2812 | above 10^308 everything but zero rounds to infinity |
| FastPath.Subnormal | src/ffc.h:2839-2868 | below the normal range, shifting and rounding up is roundTiesToEven, because no tie occurs there |
| FastPath.ComputeFloat | src/ffc.h:2799-2907 | for every exponent q and every 64-bit w: roundTiesToEven of w * 10^q, subnormals, zero and infinity included |
| Swar.EightDigitTest | src/ffc.h:1028-1031 | the word test holds exactly when all eight bytes are digits |
| Swar.ParseEightIsValue | src/ffc.h:1010-1025 | three multiplications give the value of eight digits |
| NumberString.ExpNumberExact | src/ffc.h:1277-1283 | the exponent read is the written one if and only if its digits before the last are below 2^28; from there on it is at least 2^28 and less than the written one |
| NumberString.ExponentCut | src/ffc.h:1277-1283 | the exponent 2684354560 is read as a smaller one |
| NumberString.SignificantCount | src/ffc.h:1310-1316 | the count that decides about the digit limit is that of the significant digits |
| NumberString.ParseNumberString | src/ffc.h:1142-1348 | accepts exactly the strings of the layout, with its errors; without too many digits mantissa and exponent are exact, otherwise a 19-digit mantissa of the leading digits |
| NumberText.TextParts | src/ffc.h:1142-1300 | the text of a number, an optional sign, digits, a point and more digits, an exponent with its sign, is taken apart into exactly these parts, to its end, under every set of options that allows it |
| NumberText.OnlyTexts | src/ffc.h:1142-1300 | a string that is taken apart to its end is the text of a number that the options allow, Fortran's exponents aside |
| Conversion.ReadBrackets | src/ffc.h:1142-1348 | for every literal, the same bracket holds of the number read, with the exponent as accumulated; with up to 19 digits mantissa * 10^exponent is that number |
| Conversion.ParsedBrackets | src/ffc.h:1142-1348 | mantissa * 10^exponent is at most the literal's value and (mantissa + 1) * 10^exponent is more, if and only if the written exponent is not cut, or all digits are zero |
| Conversion.ParsedExactly | src/ffc.h:1142-1348 | with up to 19 digits, mantissa * 10^exponent is the literal's value if and only if the exponent is not cut or all digits are zero |
| Rounding.ChopWindow | src/ffc.h:2325-2334 | for every binary exponent, all numbers with the same leading 53 bits are chopped to the same double |
| Conversion.ComputeError | src/ffc.h:2912-2935 | for every exponent of the table, the unrounded estimate of the slow path brackets w * 10^q between a double and the next |
| Conversion.NearNext | src/ffc.h:2666-2711 | a literal above a 19-digit mantissa stays below the halfway point above the next double |
| Conversion.CutLiteral | src/ffc.h:1277-1283 | "0.", 2^28 - 1 zeros and "1e2684354560" is read as 1, although the number is above the largest double |
| Conversion.RightForDenoted | src/ffc.h:1277-1283 | the double that the number read rounds to is the one that the number written rounds to, if and only if the exponent is not cut, or both numbers are at most half the least double, or both are at least the halfway point above the largest |
| Conversion.FarOut | src/ffc.h:1277-1283 | with fewer than 2^27 digits and a cut exponent, both numbers are out of range on the same side |
| Conversion.NumeralRead | src/ffc.h:1277-1283 | for the text of a number, unless both its exponent and its digits are huge, a double that is right for what is read is right for digits * 10^(exponent - digits behind the point) |
| Conversion.FromParsed | src/ffc.h:3007-3046 | for every literal, whatever its length and exponent: roundTiesToEven of the number read, and of the number written exactly under the condition of `RightForDenoted`; infinity and a zero for other digits than zeros are reported as out of range |
| Conversion.FromChars | src/ffc.h:3048-3080 | the same from the bytes, with the sign and the end of the number; a string outside the layout is refused with its error; the text of a number has the number's sign, is read to its end and is rounded to the double nearest to digits * 10^(exponent - digits behind the point) |
| DoubleItems.DoubleBits | src/read.c:315-336 | the reader's conversion of a double's text: the bits of the correctly rounded number, or nothing if the text is no number, is not one to its end, or is out of range |
| DoubleItems.NumberConverted | src/read.c:315-336 | the text of a number is converted to the bits of the double nearest to it, negative exactly after a minus, and refused exactly when the number is too large, or too small without being zero |
| DoubleItems.OnlyNumbers | src/read.c:330-336 | nothing but the text of a number is converted |
| DoubleItems.DoubleItem | src/read.c:315-345 | a comma, the text of a number and CRLF are the encoding of a double reply with these bits |
| DoubleItems.FiniteIsRounded | src/read.c:315-336 | a finite double item of the grammar, with that conversion, has the text's sign and is correctly rounded for the number read; for the number written exactly under the condition of `RightForDenoted`, and always below 2^27 bytes |
| DoubleItems.RefusedExactly | src/read.c:333-336 | a text that is a number to its end is refused exactly if the number read rounds to infinity, or to zero without being zero |
| Decimal.ValueOfNatText | src/read.c:180-247 | printing and positional value are inverse |
| Decimal.NatTextOfValue | src/read.c:180-247 | a digit string without leading zero is the text of its value |
| Decimal.String2ll | src/read.c:180-247 | accepts exactly the shortest decimal texts of 64-bit integers, with their values |
| IntPrinter.Digits10 | src/sds.c:449-479 | the decision tree is the length of the decimal text |
| IntPrinter.Ull2String | src/sds.c:481-527 | two digits at a time, in place: the decimal text and a terminator, or nothing when it does not fit; bytes before the buffer stay |
| IntPrinter.Ll2String | src/sds.c:530-563 | the same with a sign, down to the least integer; the strict parser reads it back |
| Command.CountDigits | src/valkey.c:298-313 | the length of the decimal text |
| Command.TotalLength | src/valkey.c:315-317 | the reserved space is the encoding's length |
| Command.FormatCommandArgv | src/valkey.c:654-690 | fills exactly the reserved bytes with the encoding, and a terminator |
| Command.FormatSdsCommandArgv | src/valkey.c:603-646 | produces the same bytes |
| Command.RoundTrip | src/read.c:415-690 | the reader turns an encoded command, whatever follows, into one array of exactly its arguments, or refuses it exactly when its element limit is exceeded |
| Command.EncodingPrefixFree | src/valkey.c:654-690 | different commands have different encodings, none a prefix of another |
| Walkers.ParseBulkLen | src/async.c:834-859 | the digits' value, refused above the limit before it can overflow |
| Walkers.NextArgOfBulk | src/async.c:861-900 | a call finds the next argument, whatever bytes without '$' come first |
| Walkers.Walk | src/async.c:861-900 | iterating over an encoded command yields its arguments in order |
| RoutingKey.ParseBulk | src/command.c:146-167 | the bulk string at the position, with the length counted in 32 bits |
| RoutingKey.ParseCmd | src/command.c:184-315 | on an encoded command: the key at the position its description says, keyless, or an error, in all cases; for a key by index it is the argument at that position, and an error if there is none, the arity is not met, or MIGRATE names its keys elsewhere |
| RoutingKey.FindKeyword | src/command.c:236-273 | the keyword search gives the argument after the first keyword among those it looks at |
| RoutingKey.FirstKeyword | src/command.c:236-273 | that argument, or an error, is what the first keyword's position says |
| RoutingKey.KeywordAt | src/command.c:236-273 | XREAD and XREADGROUP with their keyword after the first option get the right key; without options the search goes past the keyword and fails, unless a name or id looks like it |
| RoutingKey.PlainXread | src/command.c:236-273 | XREAD STREAMS key id is refused, or the id is taken for the key |
| RoutingKey.BlockXread | src/command.c:236-273 | XREAD BLOCK ms streams key id gives the key |
| RoutingKey.KeyNumByCount | src/command.c:284-295 | a count in digits gives the argument after it as key if it is positive or has more than one digit, and no key otherwise |
| RoutingKey.KeyNumOfText | src/command.c:284-295 | a count in shortest decimal digits gives a key if and only if it is positive |
| RoutingKey.NulCount | src/command.c:284-295 | a count of "0" and a NUL byte makes an encoded EVAL keyless, although an argument follows |
| Quoting.CatRepr | src/sds.c:972-1005 | appends the quoted form |
| Quoting.EscapeNames | src/sds.c:972-1005 | the escapes have their names in C, printable bytes stand for themselves, and all others are two hexadecimal digits |
| Quoting.QuotedByte | src/sds.c:1092-1138 | one step inside quotes undoes the escape of one byte, for all 256 |
| Quoting.Token | src/sds.c:1085-1190 | a quoted token followed by a blank or the end is read back |
| Quoting.SplitArgs | src/sds.c:1073-1207 | splitting the joined quoted forms of any byte strings returns exactly these |
| Async.PushKeeps | src/async.c:258-280 | appending a cell keeps the linked list and its contents, in order |
| Async.ShiftKeeps | src/async.c:282-296 | so does taking the first cell, which is freed |
| Async.CallbackList.Push | src/async.c:258-280 | the contents with the callback at the end |
| Async.CallbackList.Shift | src/async.c:282-296 | the first callback, and the contents without it |
| Async.AsyncContext.Command | src/async.c:980-1154 | a regular command is queued unless the context is closing; output then waits to be written |
| Async.AsyncContext.GotReply | src/async.c:566-666 | a reply goes to the oldest queued command; an error nobody asked for ends the connection |
| Async.AsyncContext.FreeInternal | src/async.c:343-398 | exactly the pending callbacks up to the first with a function are run with NULL, in order, then it waits for that one's return; with none left, the disconnect callback is run if the context was connected and has one, and otherwise the context is freed |
| Async.AsyncContext.DisconnectInternal | src/async.c:416-442 | the connection ends and with it the context, unless it is to be kept: then nothing is delivered; without an error the queue is empty, so the assertion holds |
| Async.AsyncContext.Disconnect | src/async.c:449-457 | from a callback or with commands pending it only closes the context to new commands; otherwise the context ends, also one that was to be kept |
| Async.AsyncContext.NoReply | src/async.c:566-583 | a closing connection ends exactly when everything is written and answered; otherwise it waits |
| Async.AsyncContext.HandleTimeout | src/async.c:780-826 | a connection without pending commands, without a command timeout or with a reply since the timer was started goes on; any other gets an error, its commands get NULL, one callback at a time, and then its context ends |
| Async.AsyncContext.Connected | src/async.c:668-712 | after the connect callback, a failed connection ends the context, and so does a callback that disconnected or freed it, as soon as nothing is pending |
| Async.AsyncContext.Return | src/async.c:566-826 | after a callback, the interrupted function goes on where it was: it processes more replies, frees the context if the callback asked for it, tells the next commands that they timed out, or honours what a connect callback asked for |
| Async.DeliveredOnce | src/async.c:343-666 | the nth delivery is to the nth accepted command, with the nth reply or NULL; at the end all have been delivered, and only then the disconnect callback has run |
| Async.Run | src/async.c:258-826 | all this in every run, any events in any order, with callbacks calling back: each event moves the context as its transition says, the commands are those that the events submit while the context is open, and the replies those that the events bring |
| Async.FromEvents | src/async.c:258-826 | in a sequence of transitions, the commands and replies are those of its events, in order |
| Async.StepDown | src/async.c:343-442 | in a context that is going down, each return of a callback brings the end closer, and nothing but a command sent while commands time out takes it further away |
| Async.WindsDown | src/async.c:343-442 | so over any further events of a run, the callbacks still to return are those at first, less the returns, plus the commands sent anew |
| Async.FreedInTheEnd | src/async.c:343-826 | in every run: after a failure, a time-out, a wish to disconnect or free, or the end of a closing connection, the context is freed once enough callbacks have returned; every command pending then has got NULL, and the disconnect callback has run once if and only if the context was connected and has one |
| Async.ResendingGoesOn | src/async.c:810-826 | a callback that sends its timed out command again keeps the time-out handler going, for any number of rounds |
| ClusterReplies.ErrorWords | src/cluster.c:210-227 | the kind of an error is the word its text starts with, MOVED, ASK, TRYAGAIN or CLUSTERDOWN, or none of them |
| ClusterExecute.ClusterContext.Route | src/cluster.c:1835-1880 | the node that the table names, if it can be reached, without any refresh; otherwise, after at most two refreshes, a usable connection to the node that the table names then |
| ClusterExecute.ClusterContext.Exchange | src/cluster.c:1881-1905 | the command goes out once or not at all, and is recorded as an attempt exactly then; a scheduled slot map request goes out with it, once; a lost answer schedules one |
| ClusterExecute.ClusterContext.FollowMoved | src/cluster.c:1915-1953 | the next attempt goes to the named node and the slot's entry changes at once; the reply is freed |
| ClusterExecute.ClusterContext.FollowAsk | src/cluster.c:1954-1980 | the next attempt goes to the named node, to which ASKING was sent, and the table stays |
| ClusterExecute.ClusterContext.Transmit | src/cluster.c:1881-1905 | an attempt that may come next extends the run, with its answer, exactly when the command goes out |
| ClusterExecute.ClusterContext.Attempts | src/cluster.c:1881-1990 | the loop sends the command at most the allowed retries plus one times, each time where the last answer asks |
| ClusterExecute.ClusterContext.Finish | src/cluster.c:1990-2014 | a pending slot map request is answered at the end; what then becomes of the reply and of the error, in all cases |
| ClusterExecute.ClusterContext.Execute | src/cluster.c:1835-2016 | whatever the nodes answer: the attempts recorded are at most the allowed retries plus one, each where the last answer asks, and are exactly the commands among all that is sent, in order; only a final reply is returned, and every other one is freed once; where nothing refuses, the command ends with a reply, or after all retries with the error for that |
| ClusterExecute.RunCommands | src/cluster.c:2044-2084 | over any number of commands the retry counter starts anew, so that all attempts recorded are at most (retries + 1) for each command, and at least one each where nothing refuses; they are exactly the commands among all that is sent |
| ClusterExecute.ChainSnoc | src/cluster.c:1881-1990 | an attempt that follows from the last answer extends the chain of attempts |
| ClusterAsync.InvPop | src/cluster.c:2916-2960 | a record taken from a queue is held by the callback and nowhere else, live, accepted and not yet delivered |
| ClusterAsync.InvRequeue | src/cluster.c:3014-3022 | queued again, it is in one queue, with one more transmission within the bound |
| ClusterAsync.InvDeliver | src/cluster.c:3024-3031 | delivered, it has left the queues for good |
| ClusterAsync.InvReturn | src/cluster.c:3024-3031 | the record freed after the user callback is live and no longer used |
| ClusterAsync.ClusterAsyncContext.Submit | src/cluster.c:3034-3119 | an accepted request is in the queue of its connection, a refused one leaves nothing behind |
| ClusterAsync.ClusterAsyncContext.Callback | src/cluster.c:2916-3032 | a request is sent again, where the error asks and only while retries are left, or delivered, never both; the error on the client is then exactly that of what failed, and the other queued callbacks keep their places |
| ClusterAsync.ClusterAsyncContext.Fire | src/cluster.c:2916-3032 | a final reply reaches the user, with the request's own private data, if and only if no error is set on the client |
| ClusterAsync.DeliveredOnce | src/cluster.c:2916-3119 | no request is delivered twice; with no request queued, every accepted one was delivered once and all records are freed; no request was sent more often than allowed |
| ClusterAsync.Run | src/cluster.c:2916-3119 | all this in every run: each event moves the client as its transition says, and the accepted requests are those that the events submit |
| ClusterAsync.FromEvents | src/cluster.c:2916-3119 | in a sequence of transitions, the accepted requests are those of its events, in order |
| ClusterAsync.StaleError | src/cluster.c:3024-3029 | a run in which a good reply is delivered as NULL because of another request's error |
| Dict.NextPower | src/dict.c:348-358 | the least power of two, from 4 on, that is large enough |
| Dict.HashTable.Find | src/dict.c:270-284 | finds the entry of a key exactly when the map has it |
| Dict.HashTable.Expand | src/dict.c:103-150 | the map stays; the size is the next power of two; refused exactly when more entries are in use |
| Dict.HashTable.ExpandIfNeeded | src/dict.c:337-345 | a table starts with four buckets and doubles exactly when it is full |
| Dict.HashTable.KeyIndex | src/dict.c:337-380 | -1 exactly for a known key, otherwise its bucket, after expanding if needed |
| Dict.HashTable.Add | src/dict.c:153-176 | adds an unknown key, and changes nothing for a known one |
| Dict.HashTable.Replace | src/dict.c:181-203 | sets the value, and says whether the key is new |
| Dict.HashTable.Delete | src/dict.c:206-234 | removes exactly the key |
| Dict.Iterator.Next | src/dict.c:313-334 | the entries come one after the other, in bucket and chain order, to the end |
| Dict.AfterDelete | src/dict.c:306-334 | deleting the entry just returned does not change what is still to come |
| Dict.AllKeysOnce | src/dict.c:306-334 | no key is in the walk twice |
| Dict.Sweep | src/dict.c:306-334 | iterating and deleting any of the entries on the way visits every key exactly once and leaves the others |
| SlotMap.TableMeaning | src/cluster.c:1023-1073 | for acceptable nodes the slot's entry is a node exactly when a range of the node covers the slot |
| SlotMap.BuildTable | src/cluster.c:1023-1073 | succeeds exactly when all nodes are primaries with valid, pairwise disjoint ranges, and then fills every covered slot |
| SlotMap.SwapContexts | src/cluster.c:428-469 | no connection is lost, shared or created, and all point back to their holders |
| SlotMap.ClusterContext.UpdateNodesAndSlotmap | src/cluster.c:1023-1111 | on failure nothing changes; on success every entry is a node of the new map |
| SlotMap.ClusterContext.NodeFromRedirect | src/cluster.c:1718-1824 | the known node with the address, or a new one added to the map |
| SlotMap.ClusterContext.Moved | src/cluster.c:1917-1928 | one entry changes, and every entry is still a node of the map |
| Crc16.EntryIsDivision | src/crc16.c:46-75 | each table entry is the division of its byte by the polynomial 0x1021 |
| Crc16.Crc16 | src/crc16.c:77-83 | the table-driven loop is bit-serial division, for every byte string |
| Crc16.SelfChecking | src/crc16.c:77-83 | a message followed by its CRC has CRC zero |
| Crc16.CheckValue | src/crc16.c:32-43 | the CRC of the digits 1 to 9 is 0x31C3 |
| Crc16.KeyHashSlot | src/cluster.c:167-190 | the slot is that of the CRC of the hash tag |
| Crc16.SlotIsRemainder | src/cluster.c:160-190 | the slot of a checksum is its remainder modulo 16384 |
| Crc16.TagDecides | src/cluster.c:167-190 | keys with the same first non-empty {tag} share the slot |
| Crc16.WholeKey | src/cluster.c:167-190 | a key is hashed whole if and only if its first opening brace, if any, has no closing one after it, or one right after it |

## Left out

- Sockets, TLS, name resolution, event loop adapters, timers as wall-clock time, and the RDMA connection set-up with its work queue entries and waiting loop: calls into code that is not part of this model; their outcomes are events.
- Rdma.RdmaContext.WriteBytes: one pass of writing; that it waits for completions and goes on is left to the run of the system.
- Allocation failures: allocation succeeds, so out-of-memory results, the shrinking of an idle reader buffer (`maxbuf`) and size computations that overflow `size_t` do not occur. The 62 limbs of the big integers are a real bound.
- The reader's `int` line lengths and element indexes are unbounded numbers here.
- Reader.Reader.LoadLine: the conversion of a double's text is a parameter (`Limits.decimal`) of the grammar and the reader; `DoubleItems.BitsOf` is the function that the source's conversion computes.
- Reader.Reader.GetReadBuf: how much space it makes writable is not stated, and an idle buffer does not shrink.
- Conversion.FromParsed: the fast path on hardware floating point, float32, SIMD variants and integer parsing are left out.
- Conversion.FromChars: white space, infinities and NaN as text are left out; the reader treats the last two itself.
- NumberString.ParseNumberString: takes the string as bytes without leading white space, and options for general numbers; error positions are not modelled, and the exponent is as accumulated, which `NumberString.ExpNumberExact` compares with the written one.
- RoutingKey.ParseCmd: the description of the command is given; the search in the command table, whose order does not fit the search, is left out, and so are arguments of 4 GiB or more.
- Command.FormatSdsCommandArgv: the growth of the string's storage is not modelled; the variadic formatter is left out.
- Quoting.SplitArgs: says nothing about lines that are not joined quoted forms, apart from staying in bounds.
- Quoting.Token: says nothing about unquoted and single-quoted tokens.
- Dict.HashTable.Find: the hash function is an arbitrary function of the key; `hash & sizemask` is written `hash % size`, which is the same for the powers of two that sizes are.
- Dict.NextPower: sizes are unbounded, so that the cap at LONG_MAX does not occur.
- Async.AsyncContext.Command: pub/sub, MONITOR, push messages and the empty command are left out, so that a reply belongs to a regular command; a reply to no command is an error reply, as the source asserts, and a failure sets an error code.
- Async.AsyncContext.GotReply: push and subscription replies are left out.
- Async.AsyncContext.FreeInternal: the callbacks of subscriptions, which also run with NULL, are left out.
- Async.Run: callbacks return; a context that is freed is not used any more.
- ClusterExecute.ClusterContext.Execute: a refresh of the slot map is one step with any outcome, and nodes are their addresses; the lifetime of node and connection structures across a refresh is not modelled, in particular src/cluster.c:1934-1944 goes on with the node of a redirect after a refresh that replaces all nodes. Matching the replies of pipelined slot map requests is left out.
- ClusterAsync.ClusterAsyncContext.Callback: the slot table and the choice of nodes are left to the environment (`ClusterAsync.Choices`); a connection's queue is a sequence, which `Async` shows it to be.
- SlotMap.ClusterContext.Moved: parsing node addresses, host names and the replies of CLUSTER SLOTS and CLUSTER NODES is left out; what is overwritten behind the table is not modelled.
- SlotMap.ClusterContext.NodeFromRedirect: takes the parsed address; the text of the redirect is not modelled.
- Error message texts, `adlist`, the restart behaviour of `valkeyClusterNodeNext`, and pipelined cluster commands.
