# Verified model of the cbase core

cbase is a C99 base library. This project models its nine core modules in Dafny, keeping their form
(objects whose methods update fields, loops over buffers and lists), and proves what those modules are
for. Each object is specified by functions on plain values; the laws are lemmas about those functions,
and every method's contract ties it to them.

| part | files |
|---|---|
| PCG32, bounded draws, shuffle | `Lcg`, `Pcg`, `Bounded`, `Shuffle`, `Rng`, `PcgExample` |
| bounded thread-safe queue | `Ring`, `TsQueue` |
| network simulator | `NetModel`, `NetLists`, `NetInvariant`, `NetRuns`, `NetFifo`, `NetCounts`, `NetCap`, `NetTallies`, `NetSim`, `NetDrive`, `NetSeeds` |
| SHA-256 and HMAC | `Fips180`, `Hash`, `HmacContext`, `ShaFacts`, `ShaExample` |
| fixed point | `SquareRoot`, `FixedOps`, `ArcTan`, `ArcTable` |
| byte codec | `Codec`, `Bytes` |
| config parser | `ConfigText`, `ConfigErrors`, `ConfigQuoting`, `ConfigPlain`, `ConfigParser`, `ConfigList`, `ConfigNumbers` |
| arena | `Arena` |
| fixed-timestep loop | `TickLoop` |
| shared arithmetic, sequences and counting | `Bits`, `Slices`, `FiniteSets`, `Tally`, `Options` |

`Fips180` follows FIPS 180-4 (sections 4.1.2, 4.2.2, 5.1.1, 5.3.3 and 6.2.2) and section 2 of RFC 2104
for the keyed construction. It knows nothing of buffers or pieces; the streaming objects are proved
against it. `ShaFacts` derives its constants from the first 64 primes, and `ShaExample` follows one
published digest through all rounds.

Conventions. C words of a fixed width are `nat` or `int` with the wrap-around written out (`% U64`,
`% U32`); the hash uses bit vectors. Allocation, clock readings and random seeds are parameters. A
method and the function that specifies it have different names where they share a module.

Where the code does not do what its own comments or header promise, the model follows the code:

- `cb_fx32_mul` truncates toward zero with 128-bit integers and rounds down without them. `FixedOps.MulAgreesIff`
  says exactly when the two agree, `FixedOps.MulDiffers` gives a pair where they do not.
- The header calls `max_queue_bytes` the maximum number of bytes in flight for an endpoint, but a duplicate is
  enqueued without a check. `NetCounts.RunWithin` gives the bound that always holds. `NetCap.CapHoldsIff` says
  for which parameters the cap is kept by every run, where a run may make any random choices that the
  parameters allow. For the program's own generator `NetSeeds` adds that every seed goes over every cap when
  all sends are duplicated and none dropped, and on a link of constant latency that does nothing but duplicate
  now and then.
- Delivery under constant latency is first in, first out, but a flush makes endpoints skip what it throws
  away. `NetFifo.NoFlushNoSkip` says that nothing else does, `NetFifo.RunSkipsIff` exactly when nothing is
  skipped, and `NetFifo.FlushSkips` gives a run in which something is.
- A tick loop with `max_ticks_per_call` 0 is documented as having no clamp, and still clamps at 2^32 - 1
  ticks a call (`TickLoop.UncappedStillClamps`, `TickLoop.AdvanceExact`).
- A queue of capacity 0 lets one push and one pop wait for each other for ever
  (`TsQueue.BothParkedWithoutRoom`, and `TsQueue.NothingWithoutRoom` for every run); with any room this cannot
  happen (`TsQueue.NeverBothParked`).
- An empty configuration key is reported as a bad key, where the header says parse error
  (`ConfigErrors.EmptyKeyIsBadKey`). `ConfigErrors.BadKeyIff`, `ConfigErrors.ParseErrorIff` and
  `ConfigErrors.QuoteErrorIff` say exactly which lines give which error.

## Model

| member | source | states |
|---|---|---|
| Pcg.StateRepeats | cbase_random.c:28-31 | For every seed state and odd increment, states i and j of the sequence are equal exactly when i and j agree modulo 2^64: the period is 2^64, not less |
| Pcg.StateReached | cbase_random.c:28-31 | From every state every other state is reached within one period |
| Pcg.MixBijective | cbase_random.c:35 | The xorshift of the high bits is a permutation, with its inverse given |
| Pcg.RotateBack | cbase_random.c:36-43 | The two-shift rotation is undone by the opposite rotation, for every amount including 0 |
| Pcg.OutputDetermines | cbase_random.c:33-44 | Given the five bits that choose the rotation and the bits the output discards, exactly one state yields a given output |
| Pcg.OutputBalanced | cbase_random.c:33-44 | Every 32-bit value is the output of exactly 2^32 of the 2^64 states |
| PcgExample.Demo | cbase_random.c:48-65 | Seed 42 and stream 54 give the six outputs that the documentation of PCG32 publishes, with which test_apps/random_test.c pins the generator |
| Bounded.AcceptedInterval | cbase_random.c:80-93 | The draws accepted and mapped to one result are consecutive numbers |
| Bounded.AcceptedCount | cbase_random.c:80-93 | For every bound b, each result below b comes from exactly floor(2^32 / b) accepted 32-bit draws |
| Bounded.ScaledRises | cbase_random.c:80-93 | A greater 32-bit draw never gives a smaller result, so results are counted up from 0 |
| Bounded.AcceptedEventually | cbase_random.c:87-91 | From every state and for every bound the rejection loop meets an accepted draw within one period |
| Bounded.DrawCount | cbase_random.c:60-65 | A whole period of draws contains every 32-bit value exactly 2^32 times |
| Bounded.Rejections | cbase_random.c:83-92 | The number of rejected draws before the first accepted one: the measure that ends the loop |
| Bounded.BoundedUniform | cbase_random.c:76-94 | Over a whole period each result is produced equally often |
| Random.Rng.Seed | cbase_random.c:48-58 | The seeding steps; the increment is always odd |
| Random.SeedsDiffer | cbase_random.c:48-58 | Different seeds of one stream never give the same starting state |
| Random.Rng.NextU32 | cbase_random.c:60-65 | The output of the old state, and one step |
| Random.Rng.NextU64 | cbase_random.c:67-72 | Two draws, the first one high |
| Random.Rng.Below | cbase_random.c:76-94 | The first accepted draw, scaled; bound 0 draws nothing; the loop ends |
| Random.Rng.Range | cbase_random.c:96-112 | The bounded draw for the span added to lo; the full 2^32 span takes a draw as it is; an empty range gives lo without a draw |
| Random.RangeUniform | cbase_random.c:96-112 | Each value in [lo, hi] comes from exactly floor(2^32 / span) draws, and equally often over a whole period, the full span included |
| Random.RangeTakesFirst | cbase_random.c:96-112 | The result comes from the first draw that any value of the range comes from |
| Random.Rng.Fx16Unit | cbase_random.c:116-121 | The top 16 bits of one draw |
| Random.Rng.Fx16Range | cbase_random.c:123-133 | A draw from [lo, hi); the cap on the span never applies |
| Random.Rng.Chance | cbase_random.c:148-153 | Certain outcomes draw nothing; otherwise the hit is decided by exactly p * 2^16 of the 2^32 draws |
| Random.Rng.ShuffleBytes | cbase_random.c:157-178 | The strided in-place byte shuffle is the element shuffle for the draws taken; a bad stride changes nothing but the info |
| Random.ShuffleTakesFirst | cbase_random.c:168-170 | For every number of elements: the exchange that settles position i comes from the first draw that any value from 0 to i comes from, i included, and the draws of a shuffle follow one another without a gap |
| Random.SwapElements | cbase_random.c:171-175 | The three copies exchange two elements and touch no other |
| Shuffle.ElementsUpdate | cbase_random.c:171-175 | Overwriting the bytes of one element changes that element only |
| Shuffle.ShuffledPermutes | cbase_random.c:168-176 | The result is a permutation of the input |
| Shuffle.ShuffledPicks | cbase_random.c:168-176 | Each draw picks one of the elements not yet settled for the last open position, and the element there takes its place |
| Shuffle.ShuffleExample | cbase_random.c:168-176 | One shuffle of four elements, with its result |
| Shuffle.ShuffleInjective | cbase_random.c:168-176 | Different draw vectors give different arrangements of distinct elements |
| Shuffle.ShuffleSurjective | cbase_random.c:168-176 | Every arrangement is reached by some draw vector |
| Ring.EnqueueAppends | cbase_threading.c:419-421 | Storing at the tail and advancing it modulo the capacity appends to the contents |
| Ring.DequeueRemoves | cbase_threading.c:453-455 | Advancing the head removes the oldest value and keeps the others in order |
| Ring.Buffer.PushBody | cbase_threading.c:419-421 | The array version of the append |
| Ring.Buffer.PopBody | cbase_threading.c:453-455 | The array version of the removal |
| Ring.Buffer.TryPopBody | cbase_threading.c:463-491 | Takes the oldest value, or reports an empty queue and changes nothing |
| Ring.Buffer.Count | cbase_threading.c:493-499 | The number of queued values |
| TsQueue.StepKeeps | cbase_threading.c:402-491 | Every step of every caller, in any interleaving, with spurious wakeups, keeps mutual exclusion, the ring and the signal accounting |
| TsQueue.TryTestsEmptiness | cbase_threading.c:463-491 | try_pop gives up if and only if the queue is empty when it holds the lock, and otherwise goes on to take an item |
| TsQueue.WaitTests | cbase_threading.c:402-461 | A push waits if and only if the queue is full, a pop if and only if it is empty |
| TsQueue.TakesOldest | cbase_threading.c:452-489 | A pop or try_pop that takes an item hands out the oldest one |
| TsQueue.EmptyWasSeen | cbase_threading.c:463-491 | In every run, a try_pop that reports an empty queue held the lock at a moment at which everything pushed had been popped |
| TsQueue.Fifo | cbase_threading.c:402-491 | In every reachable state the pushes in lock order are the pops followed by the ring contents |
| TsQueue.CallersGet | cbase_threading.c:402-491 | In every reachable state the items that callers got are, as a multiset, those popped, and the items they put in those pushed |
| TsQueue.NoLostWakeup | cbase_threading.c:402-461 | With the lock free, a parked consumer implies that at least as many consumers are woken as there are items; the same for producers and free slots |
| TsQueue.HolderMoves | cbase_threading.c:402-491 | Whoever holds the lock can always take its next step |
| TsQueue.StepCosts | cbase_threading.c:402-491 | Every step except a new call or a spurious wakeup lowers a potential |
| TsQueue.RunsEnd | cbase_threading.c:402-491 | The length of every run is bounded by the calls and spurious wakeups in it |
| TsQueue.QuietParked | cbase_threading.c:409-452 | When nothing can move, parked consumers mean an empty queue, parked producers a full one |
| TsQueue.NeverBothParked | cbase_threading.c:402-461 | With capacity at least 1, producers and consumers are never all left waiting |
| TsQueue.OutcomeIsDetermined | cbase_threading.c:402-491 | How many pushes and pops complete depends only on the calls made and on how many calls of try_pop got an item, not on the interleaving |
| TsQueue.BothParkedWithoutRoom | cbase_threading.c:338-385 | With capacity 0 a push and a pop wait for each other for ever |
| TsQueue.NothingWithoutRoom | cbase_threading.c:402-491 | With capacity 0 no run completes a push or a pop, and try_pop only reports an empty queue |
| NetLists.InsertSorted | cbase_netsim.c:102-126 | Insertion keeps the pending list in strict order of (due time, enqueue number) |
| NetLists.NotForSplits | cbase_netsim.c:288-302 | Scrubbing removes all packets of one address and none of any other |
| NetLists.FlipUndone | cbase_netsim.c:345-346 | Corruption changes exactly the byte of the drawn bit, and the same flip takes it back |
| NetTallies.FlipToggles | cbase_netsim.c:345-346 | The flip adds or takes away the value of bit (index mod 8) of byte (index div 8) |
| NetTallies.SignedCast | cbase_netsim.c:350-359 | The cast of a bound to a signed 32-bit number keeps its residue |
| NetInvariant.EnqueueKeeps | cbase_netsim.c:131-140 | Charging and inserting keep byte counts exact and every pending packet bound |
| NetInvariant.PendingBound | cbase_netsim.c:451-459 | Every pending destination is bound, by the binding the packet was sent to, so the drop branch of step is dead |
| NetInvariant.RecvPort | cbase_netsim.c:510-513 | The byte count never has to be clamped on receive |
| NetInvariant.CloseKeeps | cbase_netsim.c:254-306 | Closing leaves no packet for the closed endpoint and disturbs no other |
| NetInvariant.RunKeeps | cbase_netsim.c:221-539 | In every reachable state addresses are unique, the pending list is sorted, each byte count is the sum of pending and ready lengths, and what an endpoint received, has ready, has pending and lost to a flush is what was enqueued for it |
| NetInvariant.EachOnce | cbase_netsim.c:221-539 | Each packet enqueued for an endpoint is in exactly one of these places, and there once; no other packet is |
| NetRuns.RunOrdered | cbase_netsim.c:311-518 | With a clock that does not go back, and no due time that wraps around, every endpoint receives in order of (due time, enqueue number) and nothing before it is due |
| NetFifo.RunIsFifo | cbase_netsim.c:365-539 | With one latency and no reordering, what an endpoint received, has ready and has pending is what was enqueued for it, in that order, without the packets flushed, whatever is dropped or duplicated |
| NetFifo.NothingSkippedIff | cbase_netsim.c:520-539 | Then nothing enqueued is missing if and only if nothing was flushed |
| NetFifo.PrefixIff | cbase_netsim.c:520-539 | What was received or is ready is a prefix of what was enqueued if and only if none of it was enqueued after a flushed packet |
| NetFifo.RunSkipsIff | cbase_netsim.c:365-539 | Both conditions over every such run |
| NetFifo.NoFlushNoSkip | cbase_netsim.c:365-518 | Without a call of flush nothing enqueued is missing, and what was received is a prefix of it |
| NetFifo.FlushSkips | cbase_netsim.c:520-539 | A run in which the first packet received is the second one enqueued |
| NetFifo.ReboundStartsFresh | cbase_netsim.c:254-306 | An endpoint bound after a run never holds or receives a packet enqueued in that run |
| NetCounts.RunBalance | cbase_netsim.c:254-539 | enqueued + duplicated = delivered + dropped + queue_full + pending + ready + flushed + ready discarded on close + failed allocations of first copies |
| NetTallies.ApplyTallied | cbase_netsim.c:365-539 | What each call adds to each counter, in terms of who is bound, which bytes are ready or pending there, the cap and the rolls |
| NetTallies.RunTotals | cbase_netsim.c:365-539 | In every run each of the seven counters is the sum over its calls: dropped counts the sends to unbound addresses, those with a drop roll and the packets scrubbed by close; queue_full those that would go over the cap of a bound address; duplicated, corrupted and reordered the copies that were; delivered the packets handed out |
| NetTallies.UncappedNeverFull | cbase_netsim.c:391-400 | Without a cap queue_full stays 0 in every run |
| NetTallies.RefusedIff | cbase_netsim.c:385-401 | A send is refused if and only if its address is not bound, or has a cap that the ready and pending bytes for it plus the new ones exceed |
| NetTallies.SendReplyIff | cbase_netsim.c:365-438 | Each answer of a send has its exact condition |
| NetTallies.SendPuts | cbase_netsim.c:311-435 | A send that is not refused, dropped or out of memory enqueues one copy, or two with a duplicate: sender, destination and payload as given but for one flipped bit, due after the rolled milliseconds on the 64-bit clock |
| NetTallies.SendPutsNothing | cbase_netsim.c:365-411 | Any other send enqueues nothing |
| NetTallies.StepMatures | cbase_netsim.c:440-475 | Exactly the pending packets that are due become ready, each for its own endpoint and in order |
| NetTallies.RecvIff | cbase_netsim.c:477-518 | A receive succeeds if and only if something is ready and its length is at most that of the buffer; it finds nothing exactly when nothing is ready |
| NetTallies.RecvTakesHead | cbase_netsim.c:477-518 | It hands out the head of the ready list, frees its bytes and touches no other endpoint |
| NetTallies.BindIff | cbase_netsim.c:221-252 | Binding adds exactly the one address, with an empty endpoint, unless it is bound already or memory runs out |
| NetTallies.CloseIff | cbase_netsim.c:254-306 | Closing removes exactly the one address, and what is pending for it |
| NetTallies.FlushEmpties | cbase_netsim.c:520-539 | A flush leaves all endpoints bound, and nothing ready, pending or in flight |
| NetCounts.RunWithin | cbase_netsim.c:391-401 | Under a fixed cap M an endpoint never has more than M + min(M, 65535) bytes in flight, and no more than M without duplicates |
| NetCap.CapHoldsIff | cbase_netsim.c:391-435 | A cap is kept by every run, with any random choices the parameters allow, if and only if they rule out duplicates or all sends |
| NetCap.DuplicateExceedsCap | cbase_netsim.c:422-435 | Otherwise some allowed run goes over the cap, for every cap, and one with a single duplicated send unless all sends are duplicated |
| NetSeeds.CertainDuplicatesExceed | cbase_netsim.c:391-435 | When every send is duplicated and none dropped, calls exist for every seed that take the endpoint over the cap |
| NetSeeds.PossibleDuplicatesExceed | cbase_netsim.c:391-435 | The same for every seed when duplicates are merely possible, on a link of constant latency that neither drops, corrupts nor reorders |
| NetSeeds.HitAhead | cbase_random.c:28-65 | From every state some draw at an odd distance is 0, so that a duplicate comes up in the end |
| NetDrive.Perform | cbase_netsim.c:197-539 | Each call on the object is one legal event of the state machine |
| NetDrive.PlayAll | cbase_netsim.c:144-539 | Any list of calls on a new object is a legal run from the start, and run and generator state are determined by seed, parameters and calls |
| NetDrive.CountersBalance | cbase_netsim.c:156-162 | The conservation law for the 32-bit counters and lists that the program keeps, modulo 2^32 |
| NetDrive.CountersTally | cbase_netsim.c:156-162 | After any calls on the object its 32-bit counters are the sums of NetTallies.RunTotals modulo 2^32 |
| NetSim.RollsAt | cbase_netsim.c:403-435 | All random decisions of a send are a function of the generator's state, and are ones the parameters allow |
| NetSeeds.RollOrder | cbase_netsim.c:311-435 | When everything but the drop strikes, the twelve draws of a one-byte send are used in the order of the code: drop; latency, corruption, bit, reordering and delay of the first copy; the duplicate; the same five again |
| NetSim.Sim.constructor | cbase_netsim.c:144-169 | The start state; the generator is seeded with stream 0; bad parameters are reported |
| NetSim.Sim.FindEndpoint | cbase_netsim.c:65-76 | The first endpoint with the address |
| NetSim.Sim.FindSlot | cbase_netsim.c:102-126 | The place behind everything due no later |
| NetSim.Sim.EnqueueNode | cbase_netsim.c:131-140 | Insertion and byte charge |
| NetSim.Sim.Corrupt | cbase_netsim.c:337-348 | One inverted bit at the drawn index, or the payload as it was |
| NetSim.Sim.Reorder | cbase_netsim.c:350-359 | The extra latency, on 64-bit time, with the signed casts of its bounds |
| NetSim.Sim.EnqueueCopyOf | cbase_netsim.c:311-363 | One copy with its rolls; if either allocation fails nothing is drawn and nothing changes |
| NetSim.Sim.SendTo | cbase_netsim.c:365-438 | The step of the state machine for exactly the rolls the generator gives, for all parameters and clock readings; refusals draw nothing, an oversized payload changes nothing |
| NetSim.Sim.Step | cbase_netsim.c:440-475 | Everything due becomes ready; the result is the number of packets that left the pending list |
| NetSim.Sim.RecvFrom | cbase_netsim.c:477-518 | The oldest ready datagram if it fits; otherwise it stays and its length is reported |
| NetSim.Sim.Bind | cbase_netsim.c:221-252 | A fresh endpoint, or a refused duplicate |
| NetSim.Sim.Close | cbase_netsim.c:254-306 | The endpoint and its packets disappear; scrubbed packets count as dropped |
| NetSim.Sim.Flush | cbase_netsim.c:520-539 | Nothing pending or ready is left; counters stay |
| NetSim.Sim.SetParams | cbase_netsim.c:197-205 | Malformed parameters change nothing |
| WordOps.Rotr32IsRotation | cbase_hash.c:60-67 | The two-shift form is the rotation of FIPS 180-4 |
| WordOps.MacrosAgree | cbase_hash.c:69-74 | The four sigma macros are the functions of FIPS 180-4, section 4.1.2 |
| Hash.CompressInto | cbase_hash.c:79-127 | The in-place rounds compute the compression of FIPS 180-4, section 6.2.2 |
| ShaFacts.PrimesInOrder | cbase_hash.c:30-50 | The primes below are the first 64 primes |
| ShaFacts.RoundConstants | cbase_hash.c:32-49 | Round constant t is the first 32 bits of the fractional part of the cube root of the t-th prime (section 4.2.2 of FIPS 180-4) |
| ShaFacts.InitialValue | cbase_hash.c:53-56 | The initial hash value holds the same of the square roots of the first eight primes (section 5.3.3) |
| ShaFacts.WordAtBigEndian | cbase_hash.c:82-90 | Each word of a block is the big-endian number of its four bytes |
| ShaFacts.WordOctetsBigEndian | cbase_hash.c:216-222 | The bytes of a word are its big-endian digits |
| ShaFacts.ChChooses | cbase_hash.c:69 | Ch takes each bit from its second or third argument as the first says |
| ShaFacts.MajVotes | cbase_hash.c:70 | Maj takes the bit that at least two arguments have |
| ShaFacts.PadShape | cbase_hash.c:182-213 | The padding is one 0x80, the fewest zeros that fill a block, and the eight-byte length |
| ShaFacts.HmacPads | cbase_hash.c:247-307 | Keyed hashing in bytes: keys above 64 bytes hashed, zero fill, 0x36 inside and 0x5C outside |
| ShaExample.DigestOfAbc | cbase_hash.c:74-239 | The digest of "abc" is the published one, followed through every schedule word and round |
| Hash.FillSchedule | cbase_hash.c:81-95 | The array of 64 words is the message schedule |
| Hash.BlockCompleted | cbase_hash.c:150-172 | State and buffer after a completed block are those of the longer message |
| Hash.PadOneBlock | cbase_hash.c:182-230 | With at most 55 bytes buffered the padding ends in the same block |
| Hash.PadTwoBlocks | cbase_hash.c:182-230 | With 56 or more it takes one more block |
| Hash.Context.constructor | cbase_hash.c:131-138 | The context of the empty message |
| Hash.Context.Update | cbase_hash.c:140-180 | Any bytes, in any number of calls, are appended to the message hashed |
| Hash.Context.Final | cbase_hash.c:182-230 | The FIPS 180-4 digest of the whole message; the length field is the bit count modulo 2^64 |
| HmacContext.OneShot | cbase_hash.c:232-239 | The digest of the input |
| HmacContext.HashInPieces | cbase_hash.c:131-230 | For every split of a message into updates, empty ones included, the digest is that of the concatenation |
| HmacContext.DeriveBlockKey | cbase_hash.c:247-260 | Long keys are hashed, the rest is zero-filled |
| HmacContext.Hmac256.constructor | cbase_hash.c:262-283 | Inner and outer pads for keys of every length |
| HmacContext.Hmac256.Update | cbase_hash.c:285-288 | Bytes are appended to the text |
| HmacContext.Hmac256.Final | cbase_hash.c:290-307 | The nested construction of section 2 of RFC 2104 |
| HmacContext.HmacOneShot | cbase_hash.c:318-326 | The HMAC of key and message |
| HmacContext.HmacInPieces | cbase_hash.c:262-307 | The same for every key length and every split |
| SquareRoot.RootExact | cbase_fixed.c:308-322 | The digit loop returns r with r^2 <= n < (r + 1)^2 |
| SquareRoot.RootUnique | cbase_fixed.c:302-324 | There is only one such r |
| SquareRoot.Fx16Sqrt | cbase_fixed.c:302-324 | The exact root of v * 2^16, 0 for v <= 0 |
| SquareRoot.Fx32Sqrt | cbase_fixed.c:533-554 | The exact root of v * 2^32 with 128-bit integers |
| SquareRoot.Fx32SqrtPairs | cbase_fixed.c:555-605 | The same value from two 64-bit words |
| SquareRoot.PairDigits | cbase_fixed.c:570-602 | The word pairs go through the states of the 128-bit loop, with hand-made carries and borrows |
| SquareRoot.AddWords | cbase_fixed.c:572-575 | Carry detection by a wrapped sum is exact addition |
| SquareRoot.SubWords | cbase_fixed.c:579-583 | Borrow detection is exact subtraction |
| FixedOps.AddAgrees | cbase_fixed.c:433-446 | The xor-test addition is the saturated exact sum |
| FixedOps.SubAgrees | cbase_fixed.c:448-460 | The xor-test subtraction is the saturated exact difference |
| FixedOps.ShiftFloors | cbase_fixed.c:462-484 | The portable product is the exact one rounded down, then saturated |
| FixedOps.MulAgreesIff | cbase_fixed.c:462-484 | The branches agree iff the product is not negative, or exact, or saturates; otherwise the portable one is one unit lower |
| FixedOps.MulDiffers | cbase_fixed.c:462-484 | An input on which they differ |
| FixedOps.DivAgrees | cbase_fixed.c:486-525 | The portable division on magnitudes, with its guard against a quotient too wide, is the saturated exact quotient, truncated, for all inputs |
| FixedOps.AddSubNearest | cbase_fixed.c:433-460 | No representable value is nearer to the exact sum or difference |
| FixedOps.MulDivRound | cbase_fixed.c:462-525 | Where nothing saturates, product and quotient are within one unit of the exact ones, toward zero |
| FixedOps.DivByZero | cbase_fixed.c:486-525 | Division by zero saturates by the sign of the dividend, and 0 / 0 is 0 |
| ArcTan.Atan2Quadrants | cbase_fixed.c:365-398 | The octant reduction is the first-quadrant angle with both signs applied |
| ArcTan.Atan2Mono | cbase_fixed.c:365-398 | For fixed x > 0 the signed angle never decreases as y grows, across every octant switch, for every rising table |
| ArcTan.Atan2Opposite | cbase_fixed.c:365-398 | Opposite directions differ by half a turn |
| ArcTan.ShippedTable | cbase_fixed.c:162-196 | The shipped 257 entries rise from 0 to 8192 |
| ArcTan.RatioMono | cbase_fixed.c:260-273 | The quotient rises with its numerator and falls with its denominator |
| ArcTan.RatioFloors | cbase_fixed.c:260-273 | The quotient of the two coordinates is rounded down and never saturates |
| ArcTan.LookupLine | cbase_fixed.c:384-392 | The looked-up value is the straight line between two neighbouring entries, rounded down |
| ArcTan.EightDirections | cbase_fixed.c:365-398 | The exact angles of the axes and the diagonals, at every distance |
| ArcTable.EntriesAreArcTangents | cbase_fixed.c:162-196 | Every entry of the shipped table is the arc tangent of its index over 256, rounded to the nearest, where an eighth of a turn is 8192 |
| Codec.LittleRoundTrip | cbase_bytes.c:53-89 | Little-endian bytes are read back as the same number |
| Codec.LittleDigits | cbase_bytes.c:53-89 | Byte i is the digit of weight 256^i |
| Codec.EncodeExample | cbase_bytes.c:34-266 | The bytes of one message with a frame and a negative number in it |
| Codec.CastRoundTrip | cbase_bytes.c:91-94 | Signed values survive the casts both ways |
| Codec.PatchedLength | cbase_bytes.c:251-266 | Back-patching replaces the two placeholder bytes by the body's length and nothing else |
| Codec.WriteFailureSticks | cbase_bytes.c:34-42 | A failed writer changes neither position nor bytes again; a write succeeds exactly when it fits, a frame exactly up to 65535 bytes |
| Codec.ReadFailureSticks | cbase_bytes.c:122-130 | A failed reader does not move again; reads and frames succeed exactly when their bytes are there |
| Codec.WriteEncodes | cbase_bytes.c:34-103 | Writing any tree of integers, byte runs and nested frames succeeds iff its encoding fits the room and every body its prefix, and then the encoding is in place |
| Codec.ReadDecodes | cbase_bytes.c:122-286 | Reading at an encoding returns the tree and stops right behind it |
| Codec.RoundTrip | cbase_bytes.c:24-286 | Whatever is written successfully is read back unchanged, to the last byte |
| Bytes.Writer.WriteU8 | cbase_bytes.c:44-51 | One stored byte, or a sticky error |
| Bytes.Writer.WriteU16 | cbase_bytes.c:53-61 | Two stored bytes are the little-endian form |
| Bytes.Writer.WriteU32 | cbase_bytes.c:63-73 | Four stored bytes |
| Bytes.Writer.WriteU64 | cbase_bytes.c:75-89 | Eight stored bytes, low word first |
| Bytes.Writer.WriteSigned | cbase_bytes.c:91-94 | The unsigned write of the cast value |
| Bytes.Writer.WriteBytes | cbase_bytes.c:96-103 | A run of bytes, or a sticky error |
| Bytes.Writer.BeginFrame | cbase_bytes.c:235-249 | Two placeholder bytes and their offset |
| Bytes.Writer.EndFrame | cbase_bytes.c:251-266 | The length in place, or a body too large |
| Bytes.Writer.WriteMessage | cbase_bytes.c:34-266 | A whole tree through the primitives |
| Bytes.Reader.ReadU8 | cbase_bytes.c:132-139 | One byte, or a sticky error |
| Bytes.Reader.ReadU16 | cbase_bytes.c:141-150 | The number the two bytes stand for, or a sticky error |
| Bytes.Reader.ReadU32 | cbase_bytes.c:152-163 | Four bytes |
| Bytes.Reader.ReadU64 | cbase_bytes.c:165-180 | Eight bytes |
| Bytes.Reader.ReadSigned | cbase_bytes.c:182-216 | The value cast back |
| Bytes.Reader.ReadBytes | cbase_bytes.c:218-225 | The next n bytes |
| Bytes.Reader.Remaining | cbase_bytes.c:227-231 | The number n such that reads of at least one byte succeed exactly up to n bytes; so nothing after a failure |
| Bytes.Reader.ReadFrame | cbase_bytes.c:268-286 | A reader over exactly the body, in the same buffer; a body that does not fit fails in front of the length |
| Bytes.Reader.ReadMessage | cbase_bytes.c:122-286 | A whole tree through the primitives and sub-readers |
| Bytes.ThereAndBack | cbase_bytes.c:24-286 | Through one buffer, writer and reader objects return the message exactly when it fits, with nothing left over |
| ConfigText.FailsAtFirstWrong | cbase_config.c:333-403 | Parsing fails iff some line is wrong, and reports the first such line and its error |
| ConfigText.EntriesReflectLines | cbase_config.c:121-181 | Entries have distinct valid keys, in order of first mention, with the values last assigned, and cover every assignment |
| ConfigText.MemoryOnlyStops | cbase_config.c:121-181 | Want of memory stops a parse at a line in front of which everything was right; every other outcome is the one with plenty of memory |
| ConfigErrors.BadKeyIff | cbase_config.c:284-290 | A line has a bad key iff it has an equals sign and the trimmed text before the first one is no valid key |
| ConfigErrors.EmptyKeyIsBadKey | cbase_config.c:66-75 | A line that starts with an equals sign has a bad key |
| ConfigErrors.ParseErrorIff | cbase_config.c:276-302 | A line is a parse error iff it has no equals sign, or a valid key and a quoted value with something behind its closing quote |
| ConfigErrors.QuoteErrorIff | cbase_config.c:216-259 | The same for unterminated strings and bad escapes |
| ConfigErrors.QuotedIff | cbase_config.c:216-259 | A quoted value decodes iff it closes with a good trailer, and each of its three errors has its exact condition |
| ConfigQuoting.QuoteRoundTrip | cbase_config.c:188-260 | Every value survives quoting and decoding |
| ConfigQuoting.AssignLineParses | cbase_config.c:266-315 | A valid key and a quoted value make a line that assigns exactly that value |
| ConfigQuoting.LineTerminated | cbase_config.c:350-358 | A line ends at its line feed; one carriage return in front of it, and no more, belongs to the terminator |
| ConfigPlain.PlainLineParses | cbase_config.c:188-315 | A valid key, an equals sign and an unquoted value, with white space anywhere around them and perhaps a comment behind, assign exactly that value |
| ConfigPlain.AnyValueHasParts | cbase_config.c:188-213 | Every text behind an equals sign is a quoted value or has that form |
| ConfigPlain.QuotedLineParses | cbase_config.c:188-315 | The same around a quoted value, which can be any string |
| ConfigPlain.SkipIff | cbase_config.c:266-274 | A line says nothing if and only if it is blank up to its end or to a comment |
| ConfigPlain.TooLongIff | cbase_config.c:373-379 | A line is too long if and only if it has more than 4096 characters |
| ConfigPlain.SeenToNul | cbase_config.c:490-499 | What a C caller sees of a stored string ends before its first NUL |
| ConfigPlain.SpaceCodes | cbase_config.c:47-52 | White space by character code: never a line terminator |
| ConfigPlain.CommentCodes | cbase_config.c:272-274 | The two characters that start a comment |
| ConfigPlain.KeyCodes | cbase_config.c:54-64 | The characters of keys by code |
| ConfigPlain.EscapeCodes | cbase_config.c:238-247 | Five escapes and what they stand for, by code; no others |
| ConfigQuoting.LinesConcat | cbase_config.c:350-398 | Splitting complete lines followed by more text splits both |
| ConfigQuoting.LastTerminatorOptional | cbase_config.c:390-398 | The last line feed makes no difference |
| ConfigQuoting.DocumentRoundTrip | cbase_config.c:333-403 | A document of distinct valid keys, with any mix of LF and CRLF, is read back exactly |
| ConfigParser.DecodeInner | cbase_config.c:216-260 | The quoted branch decodes in full: the capacity guards never truncate |
| ConfigParser.DecodeInto | cbase_config.c:188-260 | The decoder fills the buffer with the decoded value, or reports the error |
| ConfigParser.ReadAssignment | cbase_config.c:266-313 | One line: nothing, an error, no memory for the value, or a key and its value |
| ConfigList.Config.FindEntry | cbase_config.c:108-119 | The entry of a key in the linked list, or none |
| ConfigList.Config.Set | cbase_config.c:121-181 | A known key keeps its place and gets the value; a new one goes behind the tail; if an allocation it needs fails nothing changes |
| ConfigList.Config.Append | cbase_config.c:160-181 | Head, tail, links and count after an append |
| ConfigList.Config.FreeEntries | cbase_config.c:317-331 | An empty list |
| ConfigList.Config.Get | cbase_config.c:490-499 | The value of a key as a C caller sees it, up to the first NUL |
| ConfigList.FetchLine | cbase_config.c:350-358 | The ends of a line with and without its carriage return |
| ConfigList.ParseText | cbase_config.c:333-403 | The linked list, count, tail, info and error line show exactly the outcome of the text, for every behaviour of the allocator and for a null text |
| ConfigNumbers.ReadDigits | cbase_config.c:514-547 | The digit loop stops before the accumulator would pass its limit, and only then |
| ConfigNumbers.PlacesCount | cbase_config.c:514-547 | Each digit counts its code above that of 0 times the power of ten of its place |
| ConfigNumbers.ParseI64 | cbase_config.c:501-548 | Accepts exactly the base-10 numerals in range, and returns their value |
| ConfigNumbers.ParseU64 | cbase_config.c:550-570 | The same without a sign |
| ConfigNumbers.GetI64 | cbase_config.c:590-610 | The fallback unless the key is there with a numeral in range |
| ConfigNumbers.GetU64 | cbase_config.c:612-632 | The same for unsigned values |
| Arena.AlignForwardRounds | cbase_arena.c:104-108 | Adding the mask and clearing the low bits rounds up to the next multiple |
| Arena.AllocIff | cbase_arena.c:110-187 | A request takes the lowest aligned free span of the current block if there is one; else the start of the next block if it is large enough; else a fixed arena is out of memory, an unknown strategy an error, and a growing one makes a block unless malloc fails |
| Arena.AllocLeaves | cbase_arena.c:110-187 | The chain afterwards, with the size of a new block: the initial size, or twice the next or current one, but never less than the request and its alignment |
| Arena.AllocPlaces | cbase_arena.c:110-187 | A successful request gets an aligned span inside its block, above everything handed out there |
| Arena.AllocKeepsForm | cbase_arena.c:110-187 | Blocks behind the current one stay unused, whatever the strategy |
| Arena.AllocKeepsLog | cbase_arena.c:110-187 | One request keeps all spans in place and disjoint, also when it fails |
| Arena.SpansDisjoint | cbase_arena.c:110-187 | Between resets all spans are aligned, inside their blocks and pairwise disjoint |
| Arena.MirrorStep | cbase_arena.c:110-187 | One request on the chain of a finished run: same reply, no new block |
| Arena.ReplayIsIdentical | cbase_arena.c:110-198 | The same requests after a reset get the same addresses and create no block, for every strategy, when no malloc failed |
| Arena.ReplayIff | cbase_arena.c:110-198 | With failures too the replies are the same iff every request that malloc failed still finds no room behind its block |
| Arena.FailureCanHeal | cbase_arena.c:129-141 | A failed request that succeeds in the replay |
| Arena.Allocator.Alloc | cbase_arena.c:110-187 | The method computes the step and the whole new chain |
| Arena.Allocator.Rewind | cbase_arena.c:189-198 | Nothing is used, no block is given back |
| Arena.CreateBlock | cbase_arena.c:25-46 | An unused block of the size asked for, with both guards in its memory |
| Arena.CheckGuards | cbase_arena.c:48-61 | True exactly when both guards are intact |
| Arena.CheckHealth | cbase_arena.c:200-211 | True exactly when every guard of the chain is intact |
| Arena.WritesKeepHealth | cbase_arena.c:200-211 | Whatever is written into all spans handed out since the last reset, every guard of the chain stays intact |
| TickLoop.TickIsPositiveIff | cbase_time.c:118-138 | The tick is the whole number of nanoseconds in 10^9 / rate; it is positive iff the rate is between 1 and 10^9 |
| TickLoop.Timer.Advance | cbase_time.c:152-225 | The call computes the new fields and the batch |
| TickLoop.AdvanceExact | cbase_time.c:164-225 | A call on a running loop runs the ticks due, or exactly the cap when more are due (2^32 - 1 when there is none), keeps the rest of a tick and reports a lag exactly then |
| TickLoop.AdvanceRunsNothing | cbase_time.c:156-184 | The first call, and a call without a tick, run nothing |
| TickLoop.DropsExcess | cbase_time.c:186-215 | Over a run each call drops exactly the excess over the cap |
| TickLoop.NothingDroppedIff | cbase_time.c:186-215 | Nothing is dropped in a run if and only if no call finds more due than the cap |
| TickLoop.Timer.Alpha | cbase_time.c:227-239 | The fraction of a tick rounded down, at most 65535 without the cap |
| TickLoop.Timer.Reset | cbase_time.c:241-252 | All progress is cleared, rate and cap stay |
| TickLoop.TimeConserved | cbase_time.c:152-225 | Elapsed time = (ticks run + ticks dropped) * tick + accumulator, for every sampling pattern |
| TickLoop.FrameRateIndependent | cbase_time.c:152-225 | With nothing dropped, index and accumulator are quotient and remainder of the elapsed time, whatever the frames |
| TickLoop.BatchesContiguous | cbase_time.c:152-225 | Batches follow one another without gap or overlap |
| TickLoop.DropsIff | cbase_time.c:186-215 | A call reports lag iff more ticks are due than the effective cap |
| TickLoop.UncappedStillClamps | cbase_time.c:186-215 | With cap 0 a call can still be clamped |

## Left out

- Random.Rng.ShuffleBytes: the bound of each draw is taken modulo 2^32, as the cast does; that the draws are uniform holds for fewer than 2^32 elements.
- `cb_rng_brad` and `cb_rng_bool`: one shift of one draw each.
- Queue creation and destruction, and failures of mutex and condition-variable calls: these calls are steps with their usual meaning.
- Fairness of the scheduler and of wakeups: every theorem about the queue holds for all schedules, none says which thread runs.
- NetSim.Sim.SendTo: the byte count of an endpoint is not wrapped at 2^64, which no memory could reach.
- NetRuns.RunOrdered: speaks of runs whose latency bounds keep their sign in the cast to 32 bits and whose due times stay below 2^64; beyond that a due time can lie in the past.
- NetSeeds.PossibleDuplicatesExceed: links that also drop, corrupt, reorder or vary their latency are not covered seed by seed, only as NetCap.CapHoldsIff covers them.
- NetSim.Sim.EnqueueNode: requires a bound destination, which send has checked before; the endpoint, ready and pending lists are sequences held in fields; relinking and freeing of nodes is not captured.
- NetSim.Sim.EnqueueCopyOf: requires a bound destination too.
- Handles of the simulator: an endpoint is named by its address; null handles and null out-pointers, `cb_netsim_set_clock` and destruction are not modelled.
- HmacContext.Hmac256.Final: says nothing for texts that, with the pad, reach 2^61 bytes; Hash.Context.Final does, with the length field taken modulo 2^64.
- Wiping of keys and contexts, and the abort call of HMAC.
- Conversions from and to floats, sine, cosine, and the one-line fixed-point helpers (min, max, clamp, lerp).
- Arena.Allocator.Alloc: blocks are sequence elements with identities, not addresses; requires a power-of-two alignment and sizes that do not overflow; which old blocks are unlinked after a reset is modelled, that they are then never freed is not claimed.
- ConfigList.ParseText: line number and count are taken modulo 2^32; freeing of strings and nodes, and reading a file, are not modelled.
- Arena.CreateBlock: a failed malloc is part of the allocation step, not of this method; the bytes of the header are not laid out in the memory of the block; its fields are those of the value returned.
- The boolean getter of the config parser: a comparison with eight words.
- Thread creation, sleeping and clocks, sockets, transports and logging.
