# A verified model of the proof-of-work server

The server reads CRLF-terminated commands, searches nonces for WORK commands with
several threads, and checks SOLN commands. A 32-bit compact difficulty stands for a
256-bit target; a nonce is a solution when the double SHA-256 of seed and nonce is
numerically below that target. This project models that logic in Dafny and proves what
it promises, and where the code does something else, exactly when.

The modules, from the bottom up:

| module | models |
|---|---|
| `Containers`, `Bits`, `Bytes` | options and streams; shifts, masks and byte strings as integers |
| `Uint256` | the in-place 32-byte arithmetic of `uint256.h` |
| `ShiftExact`, `InPlaceShift`, `AddExact`, `PowerExact` | when that arithmetic is integer arithmetic modulo 2^256 |
| `Target` | `get_target` |
| `Sha256Constants`, `Primes`, `Sha256Spec` | SHA-256 as FIPS 180-2 defines it (sections 4.1.2, 4.2.2, 5.1.1, 5.3.2 and 6.2) |
| `Sha256Stream` | the buffered implementation of `sha256.c` |
| `WordBits` | the word operations of the hash, place by place |
| `MachineOps`, `MachineWords`, `MachineSha` | the hash on 32-bit machine words with the processor's own operators, proved equal to the definition |
| `HashRuns`, `HashAnswers` | the rounds of three messages written out, and the known answers they give |
| `ProofOfWork` | `get_x`, `sha256_compare`, `is_valid_soln` |
| `Framing` | the receive buffer and the read loop |
| `Slots`, `TidQueue` | thread slot flags and the linked queue of thread ids |
| `Search` | range split and batch threads of one WORK, every interleaving |
| `WorkProtocol`, `WorkEffects` | one client's WORK protocol as a transition system, and its actions seen from one thread |
| `WorkInvariant`, `WorkSteps` | its invariant, and the proof that every action keeps it |
| `Server`, `WorkTheorems` | all clients and the global work count; safety in every reachable state |
| `WorkReplies` | which works reply |
| `WorkAborts` | what a request to end does, and until when |
| `WorkBatches` | the batch threads of a WORK: all made, none left behind |
| `WorkHandles` | the thread ids that are passed to `pthread_cancel` and `pthread_join` |
| `WorkProgress`, `WorkEnding` | who can move, who is stuck, and that the server comes to rest |
| `DoubleReset` | the double reset of a slot flag: exactly when flags can be trusted |
| `GentleRuns` | runs without ABRT, hangup or a slot taken at the wrong moment: every work is answered |
| `Teardown` | what is left of a client at rest, and of a connection that has ended |
| `WorkRuns`, `LostPermits`, `WindowRun`, `TeardownRuns`, `AbortRun`, `FullServer` | runs from the empty server, step by step: to the states in which things go wrong, to an ABRT that ends a WORK with a result, to the limit of ten works |
| `Messages`, `EndToEnd`, `LineSearch` | parsing, printing, dispatch, the path from a WORK line to the answer its reply would get, and what its search does not miss |
| `KnownLine` | the line of `output/sol1-out.txt`, from its characters to OKAY |

## What the results say

* **Arithmetic.** `uint256_add` carries towards higher indices and `uint256_sl` shifts
  its carry by the wrong amount, so neither is integer arithmetic in general.
  `AddExactIff`, `ShlExactIff`, `InPlaceExactIff` and `MulByPowerExactIff` give the exact
  conditions, `CarryIsLost`, `InPlaceSmears` and `DoublingIsWrong` a failure. All shifts
  that `get_target` reaches meet the condition, so `TargetExact` holds for all 2^32
  difficulties.
* **Hashing.** Any sequence of updates gives the digest of FIPS 180-2 of the
  concatenation. The tables of constants are proved to be the fractional bits of the
  roots of the first primes, as the standard defines them, and the table of primes is
  proved to hold the first sixty-four. Every word operation is proved place by place
  (`ChBit`, `MajBit`, `RotrBit`, `SigmaBits`), the whole compression is proved equal to
  one on 32-bit machine words with native operators (`MachineCompresses`), and on these
  the known answer for "abc" (`Sha256Abc`) and a double hash (`DoubleHash`) are proved as
  literal bytes.
* **Nonces.** `get_x` tests the byte order of the host with `ntohl(solution) != solution`,
  on 32 bits against 64. For a byte palindrome p below 2^32 that test fails and the
  nonce p * 2^32 is encoded instead; for every other nonce the check is the protocol's
  rule (`GetXExactIff`, `AcceptedSolves`); `MisencodedNonce` gives one that fails.
* **Protocol.** The transition system has one action for each critical section or other
  atomic step, unboundedly many commands and clients, cancellation by ABRT, slot reuse
  and disconnection. The theorems hold in every reachable state. Without new commands
  every run is bounded (`QuietRunsEnd`), and the server comes to rest by itself, with its
  clients still connected (`RestIsReached`). At rest, unless a search found nothing or
  three permits are lost, every admitted work has replied if and only if it was not
  cancelled (`EveryWorkAnswered`), no thread is left and no work is counted
  (`RestIsClean`, `RestCountsNobody`). For a client that stays, sends no ABRT and takes no
  slot between the two resets of its flag, that means that every admitted work is
  answered (`GentleRestAnswers`, `GentleWorksAreAnswered`). A WORK that was asked to end
  can be ended in every reachable state up to the one in which it sees its turn, and is
  then silent for good (`RequestCanEnd`); after that it replies, whoever asks
  (`TurnIsFinal`).
* **End to end.** Each SOLN that the server sends for a well-formed WORK line, fed back in
  any cut into reads, is one command, dispatched as SOLN, parsed to the same
  difficulty, seed and nonce, and answered OKAY. The search of a line accepts exactly the
  nonces that meet the target (`SearchOfLine`); one that ends in vain has missed none but
  in the interval of an accepted 0 (`NothingMissed`), and with one batch every reply is
  the least solution (`LeastReply`). The line of `output/sol1-out.txt` is followed from its
  characters through the double hash to OKAY (`LineIsOkay`).

## Where code and intention differ

* `check_avail_thread` answers 1 or -1, and `handler.c:96` compares it with 0, so the
  wait there never happens (`Slots.CheckAvailThread`). The wait at `handler.c:110` is
  the effective one.
* A WORK that ends normally resets its slot flag twice (`work_handler.c:61`,
  `handler.c:238`). Flags tell the truth exactly as long as the client never takes a slot
  whose occupant is between its two resets (`FlaggedIff`). A slot taken in that window is
  flagged free when the next command starts in it (`WindowStartsUnflagged`), and the command
  after that takes it again and cancels a live WORK: `WindowCancelsWork` is such a run
  from the empty server, without ABRT or hangup. Outside the window only an ABRT or the
  end of the connection asks a WORK to end (`OnlyAbortAsks`, `GentleWorksReply`). At most
  one live thread per slot holds in any case, because of the join at `handler.c:118-121`
  (`OneThreadPerSlot`).
* `pthread_cancel` and `pthread_join` are undefined on the id of a thread that was never
  created or has been joined. The client thread never makes such a call
  (`ClientUsesLiveIds`). An ABRT does, exactly when it finds a WORK in the queue whose
  thread is not yet created (`AbortUsesLiveIdIff`): the id is then that of a joined
  thread, or null if no command was ever started in the slot, because `handler.c:261`
  does not test it as `handler.c:118` does. Both states are reached (`AbortMissesWork`,
  `AbortUsesNull`); if the first call has no effect, the WORK goes on to search. Where
  the call is defined it reaches the WORK of the queue entry and nobody else
  (`AbortReachesItsWork`).
* The end of a connection gets through unless a search found nothing or three permits are
  lost (`ConnectionEnds`). The loop at `handler.c:380-385` joins slots in order:
  `TeardownBlocked` is a run in which it waits for ever for a cancelled WORK that is queued
  behind one without a solution in a later slot.
* If no slot was taken in the window between the resets, a connection that has ended
  leaves no thread inside a handler and no work in the queue (`ClosedLeavesNobodyBusy`). A
  thread before its second reset can be left, and then resets a flag that has been freed
  (`WrapperOutlives`). After a slot was taken in the window a live WORK can outlive its
  connection (`WorkOutlives`).
* A WORK cancelled between `sem_wait` and `sem_post` never posts. Its permit is lost for
  the connection (`CancelLosesPermit`, `LeaksStay`). With fewer than three permits lost
  there is no circular wait (`NoCircularWait`); after the third no WORK of that client
  searches again (`StarvedForever`), exactly the blocked works stay where they are
  (`StarvedIsStuck`), and a waiting head stays until it is cancelled
  (`HeadStaysForever`). `ThreePermitsLost` is a run that gets there.
* `uint256_exp` does not load the base when the result buffer is the base buffer, so
  every positive power comes out as 0 (`ExpAliasedIsZero`). No caller does this.
* The nonce 0 cannot be told from "no solution". If 0 is accepted, the batch that starts
  at 0 stops there and reports nothing, so the rest of its interval is never tried
  (`ZeroHidesTheRest`); all other intervals are searched in full (`ExhaustedMeansNone`).

## Assumptions

* The host is little-endian, `pthread_create` succeeds, and `char`, `int` and buffer
  lengths do not overflow.
* The decrement at `work_handler.c:16`, which is outside `global_work_mutex`, is atomic.
* The cleanup of a WORK is not interrupted: cancellation is delivered only between
  `work_handler.c:93` and `176`.
* A `pthread_cancel` for a null id or for that of a joined thread has no effect. The C
  library may end the server instead; `AbortUsesLiveIdIff` says when that can happen.
* `abrt_handler` walks the queue without the mutex; it is modelled as any number of
  requests to threads whose slot is in the queue at that moment, in any order.
* Admission (`handler.c:179-192`) is one step, and a send appends to the history of
  replies.

## Model

| member | source | states |
|---|---|---|
| `Uint256.ShiftLeft` | uint256.h:26-43 | Leaves the buffer that the byte-wise shift specification gives for the old destination and operand, including the low bytes that are never cleared; when they are one buffer, the shift that reads its own results |
| `Uint256.ShiftLoop` | uint256.h:38-42 | Every byte after the loop, with and without aliasing |
| `InPlaceShift.InPlaceExactIff` | uint256.h:26-43 | Within one buffer the shift is multiplication by 2^shift modulo 2^256 if and only if, below 8 bits, each byte is right when it takes its incoming bits from the shifted byte at its right, and from 8 bits on, the last bytes are clear and every set bit leaves the buffer |
| `InPlaceShift.InPlaceSmears` | uint256.h:39-42 | A failure: within one buffer a shift by one byte copies the last byte to every place |
| `Uint256.Add` | uint256.h:45-61 | In place and under any aliasing, leaves the byte sum whose carries move from index 0 upwards |
| `Uint256.Mul` | uint256.h:63-86 | In place and under any aliasing, leaves the shift-and-add product of the old operands |
| `Uint256.AddShifted` | uint256.h:81-82 | One partial product: the shifted copy overwrites the scratch buffer, whose stale low bytes survive, and is added to the accumulator |
| `Uint256.Exp` | uint256.h:90-122 | Leaves the square-and-multiply power, with the base lost when result and base are one buffer |
| `Uint256.SquareAndMultiply` | uint256.h:110-120 | The loop keeps the product that remains to be computed equal to the requested power |
| `ShiftExact.ShiftByteExact` | uint256.h:38-41 | One output byte equals the byte of a true left shift exactly when whole or half bytes move or no bit leaves its byte |
| `ShiftExact.ShlExactIff` | uint256.h:26-43 | The shift is multiplication by 2^shift modulo 2^256 if and only if the destination is clear below the shift and either whole or half bytes are moved or no bit leaves its byte |
| `AddExact.AddIsLittleEndian` | uint256.h:55-60 | For all operands the addition is correct when the buffers are read as little-endian integers |
| `AddExact.AddExactIff` | uint256.h:45-61 | Read big-endian, the addition is correct modulo 2^256 if and only if no byte position overflows |
| `AddExact.CarryIsLost` | uint256.h:56-60 | A concrete sum, 255 + 1 in the last byte, that comes out wrong |
| `PowerExact.MulByPowerExactIff` | uint256.h:63-86 | A product with 2^s is correct modulo 2^256 if and only if the one shift it makes is exact |
| `PowerExact.DoublingIsWrong` | uint256.h:40-41 | A concrete product, 128 times 2, that comes out wrong |
| `PowerExact.MulByBytePower` | uint256.h:63-86 | A product with any power of 256 is correct modulo 2^256 for every multiplicand |
| `PowerExact.MulPow` | uint256.h:63-86 | A product of two powers of two is the power of the sum of their exponents whenever the shift is compatible with the bit's place |
| `PowerExact.ExpFromPow` | uint256.h:110-121 | Loop invariant of the exponentiation: acc is 2^(2^t), temp is 2^r with r below 2^t, and the result is 2 to the exponent that was asked for |
| `PowerExact.ExpTwoExact` | uint256.h:90-122 | With base two the exponentiation gives 2^e modulo 2^256 for every e |
| `PowerExact.ExpAliasedIsZero` | uint256.h:104-106 | With result and base in one buffer every positive power is zero |
| `Target.GetTarget` | handler_helper.c:238-287 | Returns the buffer of the target specification for the host-order difficulty |
| `Target.NtohlTwice` | work_handler.c:184 | Undoing the byte-order conversion gives back the difficulty that was parsed |
| `Target.TargetExact` | handler_helper.c:238-287 | For every wire difficulty v the target, read big-endian, is (v mod 2^24) * 2^(8 * (v / 2^24 - 3)) modulo 2^256, and 0 when v / 2^24 is below 3 |
| `Sha256Constants.KIsCubeRootOfPrime` | sha256.c:32-41 | Round constant t is the first 32 fractional bits of the cube root of entry t of the table of primes |
| `Sha256Constants.H0IsSquareRootOfPrime` | sha256.c:89-96 | Initial hash word i is the first 32 fractional bits of the square root of entry i of the table of primes |
| `Primes.TableIsPrimes` | sha256.c:32-41 | Up to 311 a number is prime if and only if the table holds it |
| `Primes.ConstantsComeFromFirstPrimes` | sha256.c:32-41 | Constant t comes from the root of prime number t: the entry is prime and the primes below it are exactly the earlier entries |
| `Sha256Spec.PadZeros` | sha256.c:121-132 | The least number of zero bytes that leaves room for the length field of a whole block |
| `WordBits.SameBits` | sha256.c:21-29 | Words that agree in all places are equal, so the next five rows determine the operations |
| `WordBits.WordBit` | sha256.c:24-29 | In each place the conjunction is set where both operands are, the disjunction where one is, the exclusive or where they differ, and the complement where its operand is not |
| `WordBits.RotrBit` | sha256.c:22 | Place i of a rotation by n is place (i + n) mod 32 of the word |
| `WordBits.ChBit` | sha256.c:24 | Place i of CH is that of its second operand where the first has a one, and of its third where it has a zero |
| `WordBits.MajBit` | sha256.c:25 | Place i of MAJ is set if and only if at least two of its operands have it set |
| `WordBits.SigmaBits` | sha256.c:26-29 | Place i of each sigma function is the exclusive or of the three places that section 4.1.2 of FIPS 180-2 names, where a shift supplies zeros |
| `MachineWords.NatAdd` | sha256.c:64-72 | The addition of machine words is addition modulo 2^32 of the numbers that they stand for |
| `MachineSha.NatCh` | sha256.c:24 | On machine words the choice in its shortest form, with native operators, stands for CH |
| `MachineSha.NatRound` | sha256.c:63-73 | A round computed with the processor's operators is the round of the standard |
| `MachineSha.MachineCompresses` | sha256.c:44-83 | For every hash value and every block the compression on machine words gives the intermediate hash value of the standard |
| `HashAnswers.Sha256Abc` | crypto/sha256_test.c:26-27 | The hash of "abc" is the 32 bytes of the test vector |
| `HashAnswers.DoubleHash` | handler_helper.c:344-350 | The double hash of the seed and nonce of the sample line is 00e36072... in full |
| `Sha256Stream.PackWordIsVal` | sha256.c:48-49 | Four bytes packed with shifts and ors are their big-endian number |
| `Sha256Stream.FillSchedule` | sha256.c:48-51 | The two loops fill in the recursive message schedule of the standard |
| `Sha256Stream.RunRounds` | sha256.c:53-73 | Rolling eight variables 64 times is the recursive round function |
| `Sha256Stream.FeedForward` | sha256.c:75-82 | The eight state words each gain their working variable modulo 2^32 |
| `Sha256Stream.Transform` | sha256.c:44-83 | The state becomes the intermediate hash value of one more block |
| `Sha256Stream.PaddedShort` | sha256.c:121-125 | A tail below 56 bytes is padded within its own block |
| `Sha256Stream.PaddedLong` | sha256.c:126-132 | A longer tail fills its block with zeros and leaves one more, as the standard's padding does |
| `Sha256Stream.PaddedSplit` | sha256.c:114-144 | The blocks that the two branches feed, with the length field, are exactly the padded message |
| `Sha256Stream.Context.constructor` | sha256.c:85-97 | A context that stands for the empty message |
| `Sha256Stream.Context.PutByte` | sha256.c:103-111 | The message grows by one byte; the buffer, bit count and state keep representing it, across block boundaries |
| `Sha256Stream.Context.Update` | sha256.c:99-112 | The message grows by the input |
| `Sha256Stream.Context.PadTo` | sha256.c:121-129 | The buffered tail is followed by 0x80 and zeros up to the given position |
| `Sha256Stream.Context.PadBuffer` | sha256.c:118-132 | Both branches hash the padded message but its last block and leave that block's first 56 bytes |
| `Sha256Stream.Context.PutLength` | sha256.c:135-143 | The last eight bytes are the total bit count, big-endian |
| `Sha256Stream.Context.WriteDigest` | sha256.c:148-157 | The output is the eight state words in big-endian order |
| `Sha256Stream.Context.Final` | sha256.c:114-158 | The output is the standard's digest of everything that was passed to update |
| `Sha256Stream.HashChunks` | sha256.c:85-158 | For every split of a message into updates the result is the one-shot digest of the whole |
| `ProofOfWork.Compare` | sha256.c:166-176 | -1, 0 and 1 exactly when the first string is below, equal to or above the second as big-endian numbers |
| `ProofOfWork.GetX` | handler_helper.c:301-330 | The seed followed by the eight nonce bytes that the byte-order test selects |
| `ProofOfWork.PutBigEndian` | handler_helper.c:313-315 | Writes the nonce big-endian and leaves the seed alone |
| `ProofOfWork.PutMemoryImage` | handler_helper.c:318 | Writes the nonce in memory order and leaves the seed alone |
| `ProofOfWork.GetXExactIff` | handler_helper.c:311-319 | The nonce is encoded big-endian if and only if it is 0 or not a byte palindrome below 2^32 |
| `ProofOfWork.PalindromesAre` | handler_helper.c:311-319 | Those palindromes are exactly the words with bytes a, b, b, a |
| `ProofOfWork.MisencodedNonce` | handler_helper.c:311-319 | A nonce that fails: 0x01000001 is encoded as 0x0100000100000000 |
| `ProofOfWork.XBytesIsEncoding` | handler_helper.c:311-319 | For every nonce the encoding is big-endian of some nonce: its own, or p * 2^32 for a palindrome p |
| `ProofOfWork.HashOf` | handler_helper.c:344-346 | Init, one update and final give the digest of the input |
| `ProofOfWork.IsValidSoln` | handler_helper.c:332-363 | -1 exactly when Sha256(Sha256(seed, encoded nonce)), both hashes written out, is below the target; 0 and 1 exactly when equal and above |
| `ProofOfWork.AcceptedSolves` | handler_helper.c:332-363 | Acceptance is Sha256(Sha256(seed, encoded nonce)) below the target: the protocol's rule for the encoded nonce, which is the nonce itself unless it is a non-zero palindrome |
| `Framing.SplitIsLossless` | handler_helper.c:112-136 | Commands each followed by CRLF, then the leftover, are the stream, and no part contains a CRLF |
| `Framing.SplitIsUnique` | handler_helper.c:112-136 | There is no other way to cut a stream into CRLF-free commands and a CRLF-free leftover |
| `Framing.SplitAppend` | handler.c:104 | Cutting what arrived, then the leftover with more input, is cutting the whole |
| `Framing.CommandBuffer.constructor` | handler.c:35-37 | An empty buffer |
| `Framing.CommandBuffer.HasCommand` | handler_helper.c:99-107 | True exactly when the used part holds a CRLF |
| `Framing.CommandBuffer.GetCommand` | handler_helper.c:112-136 | Takes out what is before the first CRLF and keeps what is after it; without a CRLF nothing changes |
| `Framing.CommandBuffer.Grow` | handler_helper.c:144-147 | Enough room, same contents |
| `Framing.CommandBuffer.Join` | handler_helper.c:141-152 | Appends the bytes of a read up to its first NUL, whatever the room was |
| `Framing.Drain` | handler.c:104 | Takes out every complete command in order and leaves the leftover |
| `Framing.ReadCommands` | handler.c:72-104 | For every sequence of reads the commands and leftover are those of cutting all received bytes at once |
| `Framing.ChunkingIsIrrelevant` | handler.c:78-104 | Two ways to cut the same NUL-free stream into reads give the same commands, and no byte is lost |
| `Slots.InitAvailFlags` | threads.c:12-16 | All slots free |
| `Slots.FirstFree` | threads.c:24-30 | The lowest free slot, or -1 exactly when there is none |
| `Slots.GetAvailThread` | threads.c:18-35 | Answers the lowest free slot and takes it and no other |
| `Slots.CountAvailThread` | threads.c:37-52 | The number of free slots |
| `Slots.CheckAvailThread` | threads.c:53-69 | 1 if a slot is free, else -1; never 0 |
| `Slots.ResetFlag` | threads.c:71-78 | Frees one slot and no other |
| `Slots.TakenCount` | threads.c:18-52 | Taking a slot lowers the number of free slots by exactly one, and fails exactly when that number is 0 |
| `TidQueue.Queue.constructor` | handler.c:48 | An empty queue |
| `TidQueue.Queue.Push` | handler_helper.c:48-69 | Appends the id behind all others in the linked list |
| `TidQueue.Queue.Remove` | handler_helper.c:32-45 | Drops the head and nothing else; an empty queue stays empty |
| `TidQueue.Queue.Head` | handler_helper.c:72-84 | The id at the head, -1 on an empty queue |
| `Search.RangeBound` | work_handler.c:129-144 | No start or end leaves the 64-bit range |
| `Search.RangesTile` | work_handler.c:139-144 | The intervals follow one another from n to 2^64 - 1 without gap |
| `Search.RangesAreEven` | readme.txt:46-47 | All intervals have equal length except the last, which is longer by less than the number of threads |
| `Search.RangesPartition` | work_handler.c:129-144 | A nonce is in some interval if and only if it is in [n, 2^64 - 1), and never in two |
| `Search.AssignRanges` | work_handler.c:129-144 | The 64-bit computation of starts and ends gives these intervals, without wrap-around |
| `Search.NextInv` | work_handler.c:200-243 | Every step of every batch thread keeps: all nonces before the current one were refused, and a solution is where its writer stopped |
| `Search.WriteOnce` | work_handler.c:216-234 | In every run the solution changes at most once, from zero; a non-zero one is accepted, in [n, 2^64 - 1), and the least accepted nonce of its writer's interval |
| `Search.ExhaustedMeansNone` | work_handler.c:216-237 | If all batches stopped uncancelled without a solution, an accepted nonce of the range is in the interval that starts at 0, and 0 is accepted; every other nonce was refused |
| `Search.ZeroHidesTheRest` | work_handler.c:230-233 | For every one-batch search from 0 that accepts 0, a run after which nothing is reported and no other nonce has been tried, although all are in that interval |
| `Search.StepLowersWeight` | work_handler.c:216-237 | Every step of a batch lowers the sum of what is left to try |
| `Search.RunsAreBounded` | work_handler.c:216-237 | Every run of batch steps is at most as long as that sum |
| `Search.BatchCanStep` | work_handler.c:216-237 | A batch thread that has not stopped is never blocked |
| `Search.ToldBatchesStop` | work_handler.c:213-219 | In every run of a search that has a result or was cancelled each batch tries the nonce it is testing, if it is, and no other |
| `Search.CancelledEndsUntested` | work_handler.c:22-32 | A cancelled search can end all its batches in at most one step each, without testing a nonce |
| `WorkInvariant.SlotIsExclusive` | handler.c:110-121 | Two threads of one slot that have not ended are one thread |
| `WorkInvariant.HeadIsMine` | work_handler.c:47-52 | Reading the own slot number at the head means that the head entry is the own one |
| `WorkSteps.InitialInv` | handler.c:39-50 | A new connection satisfies the invariant |
| `WorkSteps.StepInv` | work_handler.c:15-198 | Every action of the client thread, a handler, a WORK or its batches, and every cancellation, keeps the whole invariant |
| `Server.CountStep` | handler.c:179-192 | Every event of any client keeps the global count equal to the number of admitted works whose cleanup has not begun |
| `Server.RunInv` | handler.c:72-219 | Every run keeps the invariant of every client and of the global count |
| `WorkTheorems.OneThreadPerSlot` | handler.c:110-121 | In every reachable state at most one command thread of a slot is alive |
| `WorkTheorems.TwentySlots` | handler.h:20-21 | In every reachable state a client has 20 slots and at most 20 command threads that have not ended |
| `WorkTheorems.QueueHasNoDuplicates` | handler.c:184 | In every reachable state the queue holds no slot number twice |
| `WorkTheorems.PopTakesOwnId` | work_handler.c:47-56 | A work about to call rm_tid is at the head of the queue, although it looked in an earlier critical section |
| `WorkTheorems.RepliesFollowAdmission` | work_handler.c:168-197 | Admissions are those popped followed by those queued, each work replies at most once, and replies are an order-preserving subsequence of admissions |
| `WorkTheorems.RepliesAreSolutions` | work_handler.c:155-189 | Every reply carries an accepted non-zero nonce of the asked-for range, the least of the interval it was found in |
| `WorkTheorems.PermitAccounting` | work_handler.c:124-166 | Semaphore value, searching works and works cancelled while searching add up to 3 |
| `WorkTheorems.PermitsBound` | handler.h:22-23 | In every reachable state that sum holds and at most 3 works of a client search |
| `WorkTheorems.CancelLosesPermit` | work_handler.c:15-65 | Cancelling a searching work adds it to those that lost a permit and returns none to the semaphore |
| `WorkTheorems.LeaksStay` | work_handler.c:15-65 | No action ever gives a lost permit back |
| `WorkTheorems.ThreeLeaksStarve` | work_handler.c:124 | With three permits lost nobody searches, nobody can get a permit, and it stays so after any action |
| `WorkTheorems.StarvedForever` | work_handler.c:124 | In every later state of every run that client's semaphore is empty and nobody of it searches |
| `WorkTheorems.WorkCountIsExact` | driver.h:34-35 | The global count is the number of admitted works, over all clients, whose cleanup has not begun, and is within 0..10 |
| `WorkTheorems.AdmittedIff` | handler.c:179-192 | A WORK whose slot is ready is admitted, queued and counted if and only if the count is below 10, and otherwise changes neither queue nor count |
| `FullServer.TenWorks` | driver.h:34-35 | A run from the empty server to ten works that are alive at once, with the count at 10 |
| `WorkProgress.ClientProgress` | work_handler.c:124-175 | With a non-empty queue and fewer than three permits lost, thread creation or some queued work can take a step, or a work has searched its whole range in vain |
| `WorkProgress.NoCircularWait` | work_handler.c:166-175 | The same in every reachable state of the server |
| `WorkProgress.StarvedIsStuck` | work_handler.c:124 | The bound is sharp: with three permits lost a client cannot move if and only if it creates no thread and every queued work waits for a permit, or waits behind the head with its batch threads ended |
| `WorkProgress.StuckHeadWaits` | work_handler.c:124 | With three permits lost, if nothing can move the head of the queue waits for a permit |
| `WorkProgress.HeadStaysForever` | work_handler.c:124 | With three permits lost, a head that waits for a permit is still there after every run that does not cancel it |
| `LostPermits.CancelAndJoin` | work_handler.c:15-36 | A searching work that was asked to end can cancel and join its batches, with the work count lowered and the permit gone |
| `LostPermits.ThreePermitsLost` | work_handler.c:15-65 | A run from the empty server after which three permits are lost and a fourth work waits alone in the queue, with nothing left to happen but a new command or the end of the connection |
| `WorkProgress.ExhaustedHasNoSolution` | work_handler.c:155-160 | In every reachable state a searching work whose batches all stopped has no solution in its range, except in the interval that starts at 0 if 0 is accepted |
| `WorkEnding.QuietLowers` | work_handler.c:67-243 | Every action of a client that is neither a new command nor a repeated request leaves it less to do, in phases and nonces |
| `WorkEnding.QuietRunsEnd` | work_handler.c:67-243 | Every run of the server without new commands is bounded by what is left to do |
| `WorkEnding.RestIsReached` | work_handler.c:67-243 | From every state a run without command, ABRT or hangup ends at rest: nothing goes on by itself any more, and clients may still be connected |
| `WorkEnding.RestMeansDone` | work_handler.c:155-175 | At rest a client's queue is empty, or a work searched its whole range in vain, or three permits are lost |
| `WorkEnding.EveryWorkAnswered` | work_handler.c:168-197 | At rest, without those two causes, every work ever admitted has replied if and only if it was not cancelled |
| `WorkReplies.SettledStep` | work_handler.c:92-197 | Every action keeps: a work past its reply has either replied or been cancelled, never both, and each that replied is among the replies |
| `WorkReplies.RepliesIffNotCancelled` | work_handler.c:168-197 | In every reachable state a work that has left the queue has replied if and only if it was not cancelled |
| `WorkAborts.CancelIff` | work_handler.c:93-176 | A cancellation can take effect if and only if it was requested and the work waits for a permit, searches, or waits for its turn |
| `WorkAborts.OthersDieIff` | handler.c:247-271 | Any other command that was asked to end can end wherever it is in its handler, and only there, with its flag left raised |
| `WorkAborts.RequestCanEnd` | work_handler.c:93-176 | From every reachable state a WORK that was asked to end and has not seen its turn is ended by some run of the server alone; in every state after that run it is cancelled and has not replied, and if it was past sem_post it lost no permit |
| `WorkAborts.TurnIsFinal` | work_handler.c:176-189 | A WORK that has seen its turn is in no later state cancelled, and it has replied or is about to |
| `AbortRun.AbortSilencesFound` | work_handler.c:168-175 | A run from the empty server in which an ABRT ends a WORK that has its result and waits behind a searching one: the queue is empty, nobody has replied, and only the permit of the searching one is lost |
| `WorkBatches.NoBatchOutlivesWork` | work_handler.c:22-32 | In every reachable state a WORK past the join of its cleanup has no live batch thread, and one that has posted or replied had made all its batches |
| `WorkHandles.HandlesStep` | handler.c:110-209 | Every action keeps: joined threads have ended, the pool names a joined thread only in a slot that the client has cleared, every created thread has its slot in the pool, and every raised flag has a thread behind it or is held by the client |
| `WorkHandles.ClientUsesLiveIds` | handler.c:118-121 | In every reachable state the client thread cancels and joins only threads that were created and not joined, also after the end of the connection, where it does not test the id |
| `WorkHandles.AbortUsesLiveIdIff` | handler.c:247-265 | In every reachable state the id that an ABRT uses for a queue entry names a created, unjoined thread if and only if the work's thread exists; else it is null exactly if no command was ever started in the slot, and otherwise that of a joined thread |
| `WorkHandles.AbortReachesItsWork` | handler.c:247-265 | Where that call is defined it asks the entry's work to end and changes nothing else; where it is not, the work's thread does not exist yet and no live thread is touched |
| `WorkRuns.AbortUsesNull` | handler.c:261 | A run from the empty server to an ABRT whose next call is on a null id |
| `WorkRuns.AbortMissesWork` | handler.c:184-209 | A run from the empty server to an ABRT at work beside a queued WORK without thread, in a slot whose earlier command was joined: the call on that id changes nothing and the WORK goes on to search |
| `DoubleReset.FlaggedIff` | handler.c:225-242 | From a state in which every slot in use is flagged, an action leads to another if and only if it does not take a slot whose occupant is between its two resets |
| `DoubleReset.WindowStartsUnflagged` | handler.c:110-209 | After a slot is taken in that window, whatever all threads do until the client's next command starts, that command is busy in the same slot and the slot is flagged free |
| `GentleRuns.OnlyAbortAsks` | handler.c:118-121 | While every slot in use is flagged, only an ABRT or the end of the connection asks a thread to end that is not past its last reset |
| `GentleRuns.GentleWorksReply` | handler.c:110-121 | In every run without ABRT, hangup or a slot taken in the window, every slot in use is flagged, no work is cancelled, and every work that left the queue replied |
| `GentleRuns.GentleRestAnswers` | work_handler.c:155-197 | In every such run that ends at rest, if no work of the client has searched in vain, every work it ever had admitted has replied |
| `GentleRuns.GentleWorksAreAnswered` | work_handler.c:155-197 | After every such run of a connected client some run of the server by itself leads to that point: all admitted works have replied, or one has searched in vain |
| `Teardown.RestIsClean` | handler.c:72-219 | At rest a client that is not held up by a vain search or by lost permits has no thread left, an empty queue and all permits that were not lost, and its client thread waits for a command or has ended |
| `Teardown.RestCountsNobody` | work_handler.c:15-16 | If no client is held up, the global work count is 0 at rest |
| `Teardown.ConnectionEnds` | handler.c:380-385 | At rest a client that has hung up has gone through all its slots, or is held up |
| `Teardown.ClosedLeavesNobodyBusy` | handler.c:380-388 | In every run in which the client takes no slot in the window, once its connection has ended every thread is past its handler, the queue is empty, and every admitted work has replied if and only if it was not cancelled |
| `TeardownRuns.WrapperOutlives` | handler.c:229-238 | A run to an ended connection with a thread still before its second flag reset |
| `TeardownRuns.WorkOutlives` | handler.c:380-385 | A run to an ended connection with a live WORK that nobody has asked to end |
| `TeardownRuns.TeardownBlocked` | handler.c:380-385 | A run to a client thread that joins a cancelled WORK, which waits in the queue behind a WORK that has searched its range in vain, after which no action of the client is possible |
| `TeardownRuns.BlockedForever` | handler.c:380-385 | A client without possible action stays as it is in every run of the server |
| `WindowRun.WindowCancelsWork` | handler.c:238 | A run from the empty server without ABRT or hangup to a live WORK in a slot flagged free, and on to its cancellation by the next command |
| `Messages.ParsePrint` | work_handler.c:185 | Printing a number in enough hexadecimal digits and parsing it gives the number |
| `Messages.PrintParse` | work_handler.c:185 | Lower-case digits are printed back from the number that they denote |
| `Messages.HexDigits` | handler_helper.c:222-234 | Digit v of "0123456789abcdef" and of "0123456789ABCDEF" has the value v, and v is printed as the lower-case one |
| `Messages.IsHexIff` | handler_helper.c:222-234 | Exactly these characters are hexadecimal digits |
| `Messages.DispatchIff` | handler.c:148-197 | Each handler gets exactly its lines: the fixed ones their four letters, SOLN 95 characters that begin with its name and a blank, WORK 98 |
| `Messages.Hstob` | handler_helper.c:222-234 | 64 characters become 32 bytes, pair by pair, also where they are not hexadecimal digits |
| `Messages.SeedIsNumber` | handler_helper.c:222-234 | The seed, read big-endian, is the number that its 64 digits denote |
| `Messages.PairIsScan` | handler_helper.c:222-234 | On any two characters, the first no white space, the byte of the seed is what the general conversion reads from them, and 0 where it reads nothing |
| `Messages.SpacesAreSkipped` | handler.c:283 | Exactly the six white space characters are skipped before a conversion |
| `Messages.SignsAndPrefixes` | handler.c:283 | A plus sign and `0x` or `0X` before the digits change nothing, and a minus sign negates modulo 2^64 before the cut to the variable |
| `Messages.StoredIs` | handler.c:283 | In a variable of 1, 4 or 8 bytes a negative number is stored modulo its size, and one beyond 64 bits as all ones |
| `Messages.WorkScan` | work_handler.c:102-103 | A well-formed WORK line is dispatched as WORK and sscanf reads exactly the numbers its fields denote |
| `Messages.SolnScan` | handler.c:167-168 | A printed SOLN line has 95 characters, is dispatched as SOLN, and sscanf reads back difficulty, seed and nonce |
| `Messages.OneCommand` | handler_helper.c:112-136 | A line without carriage return, followed by CRLF, is framed as exactly that command |
| `EndToEnd.OkayMeans` | handler.c:283-294 | OKAY means that Sha256(Sha256(seed, encoded nonce)), read big-endian, is below mantissa times 256^(exponent - 3); both hashes are written out |
| `EndToEnd.SolnHandler` | handler.c:270-299 | For every line dispatched to it the handler answers OKAY exactly when Sha256(Sha256(seed, encoded nonce)) is below mantissa times 256^(exponent - 3), for the fields that the line determines |
| `EndToEnd.WorkLineIsRead` | handler.c:176-184 | A well-formed WORK line of 98 characters is read as its fields and describes a search that can start |
| `EndToEnd.FoundIsAccepted` | work_handler.c:177-189 | For every nonce that the search accepts, the printed SOLN, in any cut into reads, arrives as one command, parses back, and is answered OKAY |
| `EndToEnd.ReplyIsAccepted` | work_handler.c:155-189 | In every reachable state every reply to a well-formed WORK line has this property and a nonce at or above the one asked for |
| `LineSearch.SearchOfLine` | work_handler.c:102-144 | The search of a well-formed WORK line starts at its third field, makes as many batches as its fourth says, and accepts a nonce if and only if the double hash of seed and encoded nonce is below the target |
| `LineSearch.NothingMissed` | work_handler.c:155-160 | In every reachable state a WORK line whose batches all ended uncancelled without a result leaves no nonce from its start nonce below 2^64 - 1 that meets the target, but in the interval of an accepted 0 |
| `LineSearch.LeastReply` | work_handler.c:177-189 | In every reachable state every reply to a WORK line with one batch is the least nonce from its start nonce on that meets the target |
| `KnownLine.LineIsPrinted` | work_handler.c:181-185 | The reply with these values is the line of `output/sol1-out.txt`, character by character |
| `KnownLine.LineIsRead` | output/sol1-out.txt:1 | That line is dispatched as SOLN and read as difficulty 0x1fffffff, its 64 characters of seed, and nonce 0x1000000023212147 |
| `KnownLine.LineIsOkay` | output/sol1-out.txt:1-3 | It is answered OKAY |
| `KnownLine.FirstNonceIsReply` | work_handler.c:213-237 | In every reachable state every reply to the WORK with this difficulty and seed, this nonce as its first, and one batch carries this nonce |
| `KnownLine.FirstNonceIsSent` | work_handler.c:213-237 | A run from the empty server in which that reply is sent |

## Left out

- Sha256Stream.Context.Update: inputs of 2^32 bytes or more, on which the 32-bit counter of the source never ends.
- EndToEnd.SolnHandler: gives no answer for lines with a field that cannot be read or a seed of other than 64 characters; the source then goes on with memory that the line does not determine.
- Search.AssignRanges: a thread count of 0, on which the source divides by zero, and the conversion of counts above 2^31 - 1, which two digits cannot express.
- Messages.ScanHex: a number above 2^64 - 1 becomes 2^64 - 1, as strtoul has it; the C standard leaves scanf undefined there. A `0x` without digits reads as 0, on which C libraries differ.
- NULL arguments of the `uint256.h` functions: they return at once.
- 256-bit multiplication and exponentiation for arbitrary operands: the code does not compute them; the exact region is proved instead.
- Heap lifetimes, `malloc` failure, and the terminating NUL that sscanf writes behind the 64 characters of `raw_seed`.
- Cancellation inside the cleanup of a WORK, and a lost update of the global count between its unprotected decrement and an admission.
- The batch threads and the protocol are a transition system on values; the mutexes appear as the atomicity of its actions.
- Liveness when no valid nonce exists or nonce 0 is the one found: the WORK then waits until it is cancelled.
- Cancellation of a client thread by the main thread, and the freeing of connection state that its command threads may still use after a disconnect.
- Sockets, accept loop, signal handlers, logger and animation: input and output only.
- The handlers with fixed answers (PING, PONG, OKAY, ERRO, SLEP, unknown) and the padding of formatted messages: they send a constant text and touch no shared state.
- The client pool of `driver.c`: the same slot allocator, with easier properties.
