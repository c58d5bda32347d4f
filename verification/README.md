# SubEtha in Dafny

This project models the parts of SubEtha whose correctness is hardest to see and proves
what they promise. Concurrent parts are transition systems with one step per atomic
access, and their theorems hold in every state of every run. Sequential parts are methods
with the source's loops and in-place updates, proved against functions whose own
properties are proved as lemmas.

| part | files |
|---|---|
| debt-based atomic `Arc` cell | `SwapCellMachine` (steps), `SwapCellInvariant`, `SwapCellStructure`, `SwapCellOwnership`, `SwapCellDebts`, `SwapCellAccounts` (what each step keeps), `SwapCellTheorems`, `SwapCellHistories`, `SwapCellWrites`, `SwapCellProgress` |
| observation ring | `RingMachine` (steps), `RingProofs`, `RingWords` (32-bit positions), `RingStale` (where they fail), `RingCalls` (whole calls), `RingArm` (arming, the process-wide count) |
| generation handshake and migration | `Handshake` |
| scoring of tap tables | `Fields`, `LinearAlgebra`, `Elimination`, `Matching`, `Combinations`, `TapSearch`, `TapScores`, `Gf256`, `TapBytes` |
| lanes and their merge | `Lanes`, `LaneDrains`, `LaneUnion` |
| marshalling | `Marshal`, `MarshalLayout` (the format), `MarshalCode` |
| token bucket, broadcast queue | `RateLimiter`, `Broadcast` |
| shared | `Options`, `FiniteSets` |

`dafny verify dfyconfig.toml` verifies the whole project.

## How the machines read the source

All machines interleave single atomic accesses in one global order (sequential
consistency). Computation on locals, writes to memory no other thread can reach yet, and
thread-local writes are folded into a neighbouring access.

**`SwapCellMachine`.** `AcquireStep` is `acquire_record` and the end of `thread_record`
(crates/subetha-core/src/swap_cell.rs:131-159, 188-205). `LoadStep` is `free_slot` and the
loop of `Raw::load` (94-111, 314-335). `PayStep` is `pay_debts` over `each_slot` (77-90,
214-235). `DropGuardStep` and `DropStep` are the drop of a guard and `Record::release`
(114-127, 278-294). `WriteStep` is the exchange in `swap` and `compare_and_set` (337-368).
Slots name a value, not a cell, and any number of cells share the records.
A value is named by its allocation, and no name is used twice, so the allocator's reuse of
addresses is not modelled. A thread drops its guards before its thread-local gives the record
back (169-178). A cell is dropped only when nothing borrows it; its reference then goes to the
caller's references, whose drop is a step of its own.

**`RingMachine`.** A push past the gates (crates/subetha-core/src/observation.rs:223-274) loads
the tail, loads the slot's sequence, claims, stores four fields one by one and publishes; the
claiming exchange may fail for no reason. A pop (281-304) loads the fields one by one, releases
the slot and only then stores `head`. The observation is taken with its thread id already
stamped. The mode says whether positions wrap. `RingArm` is `arm` and the ring's drop (315-351,
366-381) for any number of rings.

**`Handshake`.** `OpStep` is `enter_op` (crates/subetha-core/src/handshake.rs:56-71), `Exit`
is `exit_op` (85-87), and the coordinator goes through `migrate` or `bump_generation`
(99-103, 120-125), `drain` (131-136) and the drop of the old representation, the five steps of
crates/subetha-core/src/migration.rs:3-12. The header keeps generations in 32 bits. The
counters are unbounded: 64 bits hold more operations than can be in flight.

**Sequential parts.** A lane is the walk of one tree at the pin, with entries that are examined
but not visible. Its chunk and cursor follow
crates/subetha-cxc/src/versioned_btree_map.rs:323-339: the cursor is the last key *examined*,
so it is missing exactly when nothing is left past the bound. The comment at
crates/subetha-cxc/benches/laned_versioned_map.rs:28-33 words a missing cursor as a walk that
reached the end, which would also describe a last chunk; the code is followed. The binary heap
is a set from which the least element is taken. Scores are exact fractions, not floating point.
Clock readings are arguments. Lock-protected methods are single steps. Ids, counts and totals
are unbounded; where a width matters (positions, generations, the clock, tokens, kinds and flags,
encoded integers) it is written out. Preconditions are the calls the source panics on: a `step` of
zero, a weight above the number of ids, a buffer shorter than the payload, a consumer that was never
registered.

## Findings

- Half a turn of the 32-bit positions is not far enough from harm for the ring. The signed
  `lead` compares a slot's *sequence* with the position, and a free slot's sequence is up to a lap
  ahead of the tail. With one claim less than 2^31 since the producer read the tail, there is a run
  in which a push to an empty ring is refused (`RingStale.StaleRefused`). `RingStale.StaleRefusedIff`
  says after which numbers of claims that happens, and `RingWords.StepAgreesIff` exactly which steps
  the words take as unbounded positions would. Up to 2^31 - 4096 claims all of them are
  (`RingWords.FreshRunIsPlain`).
- A stale sequence load only refuses, or leads to a claim of the true tail. Order and capacity hold
  on words if and only if every exchange that succeeds finds the slot still free for its position
  (`RingWords.InOrderIffClaimsFree`), which fewer than 2^32 - 4096 claims between the sequence load
  and the exchange ensure (`RingWords.WordRunPopsInOrder`). After 2^32 claims there is a run in which
  a push claims a slot not popped yet, and a pop returns a mixture of two observations
  (`RingStale.LateClaimTears`).
- The merged drain counts a key once for every lane that shows it, so it agrees with one tree
  exactly when no key is visible in two lanes (`LaneUnion.CountsAgreeIffKeysApart`); round-robin
  distribution of distinct keys gives that. `LaneUnion.SharedKeyDiffers` has two lanes for which the
  totals differ.
- The token bucket's reading is taken before the lock. Its bound holds for every limit, every choice
  of requests and every window if and only if the readings do not go back in lock order
  (`RateLimiter.BoundedIffOrdered`); `RateLimiter.OrderIsNeeded` has two requests that break it.

## Model

| member | source | states |
|---|---|---|
| SwapCellTheorems.KeepsInv | crates/subetha-core/src/swap_cell.rs:77-378 | every atomic step of every operation keeps the invariant: every index in range, records listed newest first, one user per record, slots ready before they are written, every recorded read covered, references balanced |
| SwapCellTheorems.EveryStateInv | crates/subetha-core/src/swap_cell.rs:63-378 | the invariant holds in every state of every run, for any number of threads, cells and values |
| SwapCellTheorems.RunExtends | crates/subetha-core/src/swap_cell.rs:77-378 | no run is excluded by the machine's own side conditions: every enabled step can be taken |
| SwapCellStructure.KeepsList | crates/subetha-core/src/swap_cell.rs:131-159 | a record pushed during another thread's walk goes in front of the list, and links never change afterwards |
| SwapCellOwnership.KeepsOwnership | crates/subetha-core/src/swap_cell.rs:122-205 | a record has one using thread across acquire, thread end, teardown-time reads and re-acquisition |
| SwapCellOwnership.KeepsReady | crates/subetha-core/src/swap_cell.rs:94-111 | a slot found free is still free when it is written, and a block is appended only after the last one |
| SwapCellDebts.KeepsDebts | crates/subetha-core/src/swap_cell.rs:214-234 | a recorded read not being loaded is owed by a guard whose cell still holds the value or whose value a writer took out of that cell and has not yet brought to the slot, even as records and blocks are added during the walk |
| SwapCellDebts.StillAhead | crates/subetha-core/src/swap_cell.rs:77-90 | a paying walk leaves a slot behind only if the slot no longer records the value |
| SwapCellAccounts.KeepsAccounts | crates/subetha-core/src/swap_cell.rs:214-378 | strong count plus recorded reads equals everything that holds the value, after every step |
| SwapCellTheorems.GuardsAliveInEveryRun | crates/subetha-core/src/swap_cell.rs:244-294 | in every run a live guard's value has a strong count above zero |
| SwapCellTheorems.RecordedReadsCovered | crates/subetha-core/src/swap_cell.rs:207-234 | in every run each recorded read is being settled by its load, or owed by a guard and covered by a cell or a writer on its way |
| SwapCellTheorems.CountsExactInEveryRun | crates/subetha-core/src/swap_cell.rs:214-378 | in every run the strong count is exactly the owned `Arc`s, cells, carrying writers, unsettled increments and guards, less one claim per slot that still records the value; it is zero exactly when the last holder has let go |
| SwapCellTheorems.CountMovesWhileAlive | crates/subetha-core/src/swap_cell.rs:214-294 | every increment and decrement finds a count above zero and moves it by one |
| SwapCellTheorems.FreedOnce | crates/subetha-core/src/swap_cell.rs:278-378 | a value whose count has reached zero stays at zero: it is freed once |
| SwapCellTheorems.NoDebtOverwritten | crates/subetha-core/src/swap_cell.rs:94-111 | a thread about to record a read finds its slot free and is the record's only user |
| SwapCellHistories.LoadIsLinearizable | crates/subetha-core/src/swap_cell.rs:314-335 | a load that returns a guard, confirmed or paid early, returns a value the cell held during the call; one that returns nothing found the cell empty during the call |
| SwapCellHistories.LoadRetriesChargedToWrites | crates/subetha-core/src/swap_cell.rs:314-335 | each time the loop of a load goes round again, another write has landed in the cell since the call began: `k` retries need `k` writes |
| SwapCellHistories.RetryPaidFor | crates/subetha-core/src/swap_cell.rs:461-468 | a compare-and-set of `rcu` that fails has a swap or compare-and-set changing the cell between the round's load and it |
| SwapCellHistories.RetriesChargedToWrites | crates/subetha-core/src/swap_cell.rs:461-468 | `k` retries of one `rcu` need at least `k` such writes while it runs |
| SwapCellHistories.UpdatesCompose | crates/subetha-core/src/swap_cell.rs:350-368 | a cell written only by `rcu` holds the updates applied one after another in the order their writes landed, none lost |
| SwapCellWrites.WritePutsValue | crates/subetha-core/src/swap_cell.rs:337-367 | in every run a swap, and a compare-and-set that finds what it expects, puts its value in the cell and takes the caller's reference to it; a compare-and-set that finds something else changes nothing |
| SwapCellWrites.WriteGivesBack | crates/subetha-core/src/swap_cell.rs:214-234 | a write that took a value out of the cell returns with one reference to it for the caller, and not before it has visited every slot that recorded the value at the exchange |
| SwapCellWrites.DroppedGuardIsGone | crates/subetha-core/src/swap_cell.rs:278-294 | a guard that is dropped is gone from every later state |
| SwapCellWrites.HandlesMove | crates/subetha-core/src/swap_cell.rs:255-378 | a new cell takes the reference to what it is made with and a dropped one gives it back; cloning, `to_arc` and dropping move one reference |
| SwapCellProgress.EveryOperationEnds | crates/subetha-core/src/swap_cell.rs:77-378 | from every state of every run, a thread left alone brings its operation to its end: nothing waits for another thread |
| RingProofs.KeepsInv | crates/subetha-core/src/observation.rs:223-304 | every step of pushes and the pop keeps: claimed positions are being written by their one claimant or published with its observation, unclaimed ones are free, and at most a lap is unreleased |
| RingProofs.RunExtends | crates/subetha-core/src/observation.rs:223-304 | no run is excluded by the machine's own side conditions |
| RingProofs.PoppedInClaimOrder | crates/subetha-core/src/observation.rs:281-304 | in every run what has been popped is a prefix of what has been claimed, and `tail - head` passes the capacity by at most one |
| RingProofs.PushedIsPopped | crates/subetha-core/src/observation.rs:223-274 | a push that returns true stands at the place of its claim for ever, and is what the pop of that place returns, all fields together |
| RingProofs.PlacesDiffer | crates/subetha-core/src/observation.rs:243-264 | two pushes that return true have different places, so neither is popped for the other |
| RingProofs.RefusedIffFull | crates/subetha-core/src/observation.rs:243-273 | a push is refused only if exactly the capacity is claimed and unreleased; with the tail it has just read, it is then refused |
| RingProofs.RefusedOnlyWhenFull | crates/subetha-core/src/observation.rs:266-269 | the same in every run, at the access that decides the refusal |
| RingProofs.PopMissesInRuns | crates/subetha-core/src/observation.rs:276-289 | a pop returns nothing exactly when the next place is unclaimed or its claimant is still writing |
| RingCalls.PushedOrFull | crates/subetha-core/src/observation.rs:223-274 | a whole push past the gates either publishes the observation it was given or is refused at an access that finds every slot claimed and not released |
| RingCalls.PushRetriesCharged | crates/subetha-core/src/observation.rs:238-273 | each time a push reads the tail again another producer has claimed or its exchange has failed for no reason, each time another; it takes two steps for each of those and at most seven more |
| RingCalls.PopEnds | crates/subetha-core/src/observation.rs:281-304 | a whole pop returns nothing after one step, or after seven the one observation it adds to those popped |
| RingProofs.PackRoundTrip | crates/subetha-core/src/observation.rs:254-257 | kind and flags packed in one word come apart again |
| RingWords.LeadAgrees | crates/subetha-core/src/observation.rs:243 | the signed wrapped lead has the sign of the true lead exactly when the sequence is not half a turn or more ahead, up to whole turns |
| RingWords.StepAgreesIff | crates/subetha-core/src/observation.rs:238-302 | a step on 32-bit words is the step on unbounded positions if and only if the sequence loaded is not, up to whole turns, half a turn or more ahead, and the tail exchanged is not whole turns past the position |
| RingWords.StepOnWords | crates/subetha-core/src/observation.rs:238-302 | every step on words is the image of a step on true positions, in which a stale position is refused or becomes the slot's current one |
| RingWords.WordRunIsImage | crates/subetha-core/src/observation.rs:238-302 | a run on words whose exchanges claim only free slots is the image of one on true positions that keeps the ring's invariant |
| RingWords.InOrderIffClaimsFree | crates/subetha-core/src/observation.rs:238-302 | in a run on words, pops follow claim order and at most a lap is unreleased throughout, if and only if every exchange that succeeds finds the slot still free for its position |
| RingWords.WordRunPopsInOrder | crates/subetha-core/src/observation.rs:238-302 | that is so with fewer than 2^32 - 4096 claims between each sequence load and its exchange, however old the position was at the load |
| RingWords.WordPushedIsPopped | crates/subetha-core/src/observation.rs:223-302 | in a run on words that claims only free slots, a push that returns true stands at the place of its claim, and is what the pop of that place returns, all fields together |
| RingWords.WordPlacesDiffer | crates/subetha-core/src/observation.rs:243-264 | two pushes that return true on words have different places |
| RingWords.RefusedFullOrStale | crates/subetha-core/src/observation.rs:266-269 | a push is refused on words only by a full ring or after more than 2^31 - 4096 claims since it read the tail |
| RingCalls.WordPushedOrFullOrStale | crates/subetha-core/src/observation.rs:223-274 | on words a whole push publishes its observation, or is refused by a full ring, or after more than 2^31 - 4096 claims since it read the tail in that call |
| RingCalls.WordPushRetriesCharged | crates/subetha-core/src/observation.rs:238-273 | its retries on words are charged in the same way |
| RingWords.FreshRunIsPlain | crates/subetha-core/src/observation.rs:238-302 | a run on words whose positions are at most 2^31 - 4096 claims old when the sequence is loaded is, state by state, the image of a run with unbounded positions |
| RingStale.StaleRefusedIff | crates/subetha-core/src/observation.rs:243-269 | for any number of claims there is a run in which a push that read the tail before them all meets the empty ring, and it is refused exactly when the slot's sequence is, up to whole turns, half a turn or more ahead |
| RingStale.StaleRefused | crates/subetha-core/src/observation.rs:243-269 | so with 2^31 - 1 claims since its tail load, a push to an empty ring is refused in some run |
| RingStale.LateClaimTears | crates/subetha-core/src/observation.rs:246-264 | in some run a push loads the sequence, waits for 2^32 claims, then claims a slot not popped yet, and the next pop returns a mixture of two observations |
| RingArm.KeepsInv | crates/subetha-core/src/observation.rs:315-381 | every step of any number of arms and drops keeps: one owner per buffer, one caller per edge, the count in balance |
| RingArm.CountIsArmedRings | crates/subetha-core/src/observation.rs:315-381 | in every run the count plus the arms between edge and increment equals the armed rings, armed rings have their buffer, and no buffer is lost |
| RingArm.ArmArms | crates/subetha-core/src/observation.rs:315-351 | once a call of `arm` has returned, its ring is armed until it is dropped |
| RingArm.ArmIsShort | crates/subetha-core/src/observation.rs:315-351 | a call of `arm` takes at most four steps, whatever others do |
| RingArm.GateOpenInRuns | crates/subetha-core/src/observation.rs:185-198 | a ring whose arm has returned is let through by the process-wide gate |
| RingArm.BufferStays | crates/subetha-core/src/observation.rs:332-347 | in every run a ring keeps the first buffer published for it, allocated, until it is dropped |
| Handshake.KeepsInv | crates/subetha-core/src/handshake.rs:56-136 | every step of operations and coordinator keeps exact counters and live representations |
| Handshake.RunExtends | crates/subetha-core/src/handshake.rs:56-136 | no run is excluded by the machine's own side conditions |
| Handshake.CountersAreExact | crates/subetha-core/src/handshake.rs:56-87 | in every run, over any number of migrations and generation wraps, each counter is the operations held with its parity plus those between increment and recheck or undo |
| Handshake.UndosChargedToBumps | crates/subetha-core/src/handshake.rs:56-71 | an `enter_op` goes round again at most once for each bump of the generation while it runs, and takes four steps for each such round and three more |
| Handshake.GetsInIffNoBump | crates/subetha-core/src/handshake.rs:57-69 | it returns at its recheck if and only if the generation has not been bumped since its load, but for whole turns of 2^32, and is then held on the current one |
| Handshake.ExitLeaves | crates/subetha-core/src/handshake.rs:85-87 | `exit_op` takes the operation off the counter it was counted on |
| Handshake.DrainReturnsIff | crates/subetha-core/src/handshake.rs:131-136 | a look at the counter ends the drain if and only if no operation is counted with the old generation's parity |
| Handshake.MigrationOnlyWaits | crates/subetha-core/src/migration.rs:3-12 | but for looks that find the old generation in use, a migration takes at most five steps |
| Handshake.DrainMeansGone | crates/subetha-core/src/handshake.rs:131-136 | once a drain has returned, no operation confirmed on the retired generation remains or ever appears |
| Handshake.RepresentationsOutlive | crates/subetha-core/src/migration.rs:3-12 | in every run a held operation's representation has not been dropped |
| Handshake.TagIsNotOlder | crates/subetha-core/src/handshake.rs:114-125 | an operation that has seen a generation finds the tag requested for that generation or a later one: the current one, or the next one's while it is being published |
| LinearAlgebra.MoreUnknowns | crates/subetha-cxc/benches/tap_search.rs:11-12 | fewer equations than unknowns leave a nonzero solution, over any field of characteristic two |
| LinearAlgebra.BasisSize | crates/subetha-cxc/benches/tap_search.rs:89-90 | all bases of one row space have one size, so rank is well defined |
| LinearAlgebra.DeterminedIffFullRank | crates/subetha-cxc/benches/tap_search.rs:121-122 | equations determine every unknown, whatever their right-hand sides, exactly when the rank is the number of unknowns |
| Elimination.Rank | crates/subetha-cxc/benches/tap_search.rs:90-119 | in-place elimination returns the dimension of the row space of the matrix it was given |
| Elimination.RankIsUnique | crates/subetha-cxc/benches/tap_search.rs:89-90 | there is only one such number |
| Elimination.ClearColumn | crates/subetha-cxc/benches/tap_search.rs:103-112 | the inner loops clear the pivot column in every other row, by a multiple of the pivot row each |
| Matching.Augment | crates/subetha-cxc/benches/tap_search.rs:195-217 | the recursive in-place search computes the search function on `paired` and `seen`, and terminates |
| Matching.TrySucceeds | crates/subetha-cxc/benches/tap_search.rs:206-214 | a search that succeeds pairs its symbol, keeps every other paired, and keeps pairs one-to-one |
| Matching.TryFails | crates/subetha-cxc/benches/tap_search.rs:202-216 | a search that fails changes no pair and has seen every repair of every symbol it reached |
| Matching.StaysStuck | crates/subetha-cxc/benches/tap_search.rs:185-190 | later searches do not free a set of symbols that has run out of repairs |
| Matching.MatchingIsMaximum | crates/subetha-cxc/benches/tap_search.rs:176-192 | `max_matching` is the size of a largest assignment, and there is a cover of that size which shows it |
| Matching.FullMatching | crates/subetha-cxc/benches/tap_search.rs:182-192 | it equals the number of symbols exactly when each can have a repair of its own |
| Matching.MaxMatching | crates/subetha-cxc/benches/tap_search.rs:182-192 | the loop over symbols computes that size |
| Combinations.NextCombination | crates/subetha-cxc/benches/tap_search.rs:158-172 | the in-place step gives the lexicographic successor, or reports that there is none |
| Combinations.SteppedIsNext | crates/subetha-cxc/benches/tap_search.rs:158-172 | nothing lies between a combination and the stepped one |
| Combinations.AllCounted | crates/subetha-cxc/benches/tap_search.rs:145-146 | there are binomially many patterns |
| TapSearch.Repairs | crates/subetha-cxc/benches/tap_search.rs:67-79 | one repair per `step` sources, each covering the newest `window` or all there are |
| TapSearch.CoversIffSomeTable | crates/subetha-cxc/benches/tap_search.rs:219-232 | a repair covers a source exactly when some table gives it a nonzero coefficient there |
| TapSearch.BuildRow | crates/subetha-cxc/benches/tap_search.rs:84-87 | a repair's row gives the source `d` places before its newest the table's tap `d`, and nothing to sources outside the window or older than the table; and whether the row says anything |
| TapSearch.TapsTell | crates/subetha-cxc/benches/tap_search.rs:81-87 | tables that differ in a tap within the window give some loss different rows |
| TapSearch.AllRecovered | crates/subetha-cxc/benches/tap_search.rs:121-143 | accepts exactly the losses that the repairs, with those coefficients, determine uniquely |
| TapSearch.RankAtMostCover | crates/subetha-cxc/benches/tap_search.rs:176-181 | repairs and symbols that hold every nonzero coefficient are at least as many as the rank |
| TapSearch.NoTableBeatsMatching | crates/subetha-cxc/benches/tap_search.rs:176-181 | for every table the rank is at most the matching size |
| TapScores.ScoreAt | crates/subetha-cxc/benches/tap_search.rs:145-174 | visits every pattern once in lexicographic order and returns the exact share recovered |
| TapScores.BoundAt | crates/subetha-cxc/benches/tap_search.rs:237-265 | visits every pattern once in lexicographic order and returns the exact share matched in full |
| TapScores.SameOrder | crates/subetha-cxc/benches/tap_search.rs:15-18 | the two visit the same patterns in the same order |
| TapScores.RecoveredIsMatched | crates/subetha-cxc/benches/tap_search.rs:176-181 | any pattern some table recovers is matched in full |
| TapScores.ScoreAtMostBound | crates/subetha-cxc/benches/tap_search.rs:237-238 | no table scores above the ceiling |
| Gf256.BuildTables | crates/subetha-cxc/src/fec.rs:30-51 | the loops fill the tables with the powers of the generator and their logarithms |
| Gf256.TwiceIsShift | crates/subetha-cxc/src/fec.rs:37-40 | the step from one power to the next is the shift by one, with `0x11D` taken off when a bit leaves at the top |
| Gf256.Order | crates/subetha-cxc/src/fec.rs:25-26 | the generator has order 255 |
| Gf256.IsPower | crates/subetha-cxc/src/fec.rs:25-26 | every nonzero byte is a power of the generator |
| Gf256.MulIsProduct | crates/subetha-cxc/src/fec.rs:63-71 | multiplying by tables is multiplying polynomials modulo the field's polynomial |
| Gf256.InvInverts | crates/subetha-cxc/src/fec.rs:73-78 | the table's inverse inverts |
| Gf256.DivDivides | crates/subetha-cxc/src/fec.rs:80-88 | the table's quotient times the divisor is the dividend |
| Gf256.TablesMakeField | crates/subetha-cxc/src/fec.rs:57-78 | the table operations satisfy the field laws, so everything above holds for them |
| TapBytes.Examine | crates/subetha-cxc/benches/tap_search.rs:348-366 | with the byte tables and the geometry's repairs, a table's score and the ceiling computed beside it satisfy score at most ceiling at most one |
| Lanes.ChunkIsNext | crates/subetha-cxc/src/versioned_btree_map.rs:323-339 | a chunk holds the visible rows of exactly the next `limit` entries past the bound, or of all there are, and the cursor is the last key examined, missing exactly when none is |
| Lanes.InRows | crates/subetha-cxc/src/versioned_btree_map.rs:323-339 | a row is emitted exactly when its entry is in the walk and visible |
| Lanes.CutIsBetween | crates/subetha-cxc/benches/laned_versioned_map.rs:143-150 | a chunk cut at the frontier is exactly the lane's rows between the bound and the frontier |
| Lanes.Merge | crates/subetha-cxc/benches/laned_versioned_map.rs:151-168 | the heap merge emits every row of every run once, in order |
| LaneDrains.AskLanes | crates/subetha-cxc/benches/laned_versioned_map.rs:130-142 | each lane's next chunk, and the smallest cursor |
| LaneDrains.CutAt | crates/subetha-cxc/benches/laned_versioned_map.rs:143-150 | each run truncated at the frontier |
| LaneDrains.DrainMerged | crates/subetha-cxc/benches/laned_versioned_map.rs:125-175 | terminates, emits every visible row of every lane exactly once, in ascending order across all rounds |
| LaneDrains.DrainPlain | crates/subetha-cxc/benches/laned_versioned_map.rs:182-198 | terminates and emits exactly the tree's visible rows in order |
| LaneUnion.MergedIsPlain | crates/subetha-cxc/benches/laned_versioned_map.rs:10-12 | the merged drain emits, row for row, what the plain drain of one tree with the same entries emits |
| LaneUnion.CountsAgreeIffKeysApart | crates/subetha-cxc/benches/laned_versioned_map.rs:16-26 | for one tree that shows the keys the lanes show, the two drains count the same exactly when no key is visible in two lanes |
| LaneUnion.SharedKeyDiffers | crates/subetha-cxc/benches/laned_versioned_map.rs:16-26 | two lanes that show one key with different values count two where a tree with that key counts one |
| LaneUnion.DrainsAgree | crates/subetha-cxc/benches/laned_versioned_map.rs:200-227 | the totals the two drains return are equal exactly when no key is visible in two lanes |
| Marshal.RoundTrip | crates/subetha-core/src/marshal.rs:128-231 | unmarshalling what was marshalled gives the value back, whatever follows it, for every type |
| Marshal.Canonical | crates/subetha-core/src/marshal.rs:128-231 | any bytes accepted are a value's encoding and marshal to themselves |
| MarshalLayout.LaidOutIffEncoded | crates/subetha-core/src/marshal.rs:128-222 | bytes are a value's encoding if and only if they are its layout: numbers lowest byte first, signed ones modulo the range, truth as 0 or 1, element `i` at `i` widths, a pair's second after its first |
| MarshalLayout.DecodesLayout | crates/subetha-core/src/marshal.rs:136-231 | what is read is exactly the value whose layout the buffer begins with |
| MarshalLayout.ByteAt | crates/subetha-core/src/marshal.rs:131-133 | byte `k` of an encoded number is its `k`-th digit to the base 256, counted from the lowest |
| Marshal.ShortIffTooFew | crates/subetha-core/src/marshal.rs:136-142 | a short buffer is reported exactly when there are fewer bytes than the whole type needs, with the whole width, before anything is invalid |
| Marshal.ReadsItsWidth | crates/subetha-core/src/marshal.rs:108-116 | what follows the type's width changes nothing |
| Marshal.EncodeWidth | crates/subetha-core/src/marshal.rs:97-98 | an encoding has exactly the payload's width |
| Marshal.TotalIsProduct | crates/subetha-core/src/marshal.rs:193 | an array's width is its element's times its length |
| MarshalCode.MarshalInto | crates/subetha-core/src/marshal.rs:128-222 | writes the encoding at the start of the slice and changes no other byte |
| MarshalCode.WriteLayout | crates/subetha-core/src/marshal.rs:128-222 | so the slice begins with the value's layout, and the bytes before and after are as they were |
| MarshalCode.MarshalItem | crates/subetha-core/src/marshal.rs:196-197 | element `i` goes at offset `i` times the element width, after those before it |
| MarshalCode.MarshalItems | crates/subetha-core/src/marshal.rs:194-199 | the loop over elements writes their encodings one after another |
| MarshalCode.Unmarshal | crates/subetha-core/src/marshal.rs:136-231 | computes the decoding, errors included |
| MarshalCode.ReadLayout | crates/subetha-core/src/marshal.rs:136-231 | so a value is returned exactly when the buffer begins with its layout, a short buffer is reported exactly when it is shorter than the type, and anything else is invalid |
| MarshalCode.UnmarshalItems | crates/subetha-core/src/marshal.rs:200-211 | the loop over elements stops at the first invalid one |
| RateLimiter.MutexBucket.constructor | crates/subetha-cxc/benches/shared_rate_limiter.rs:41-49 | a new bucket is full |
| RateLimiter.MutexBucket.TryAcquire | crates/subetha-cxc/benches/shared_rate_limiter.rs:50-60 | grants and refuses as the acquiring function says; a refusal changes nothing |
| RateLimiter.MutexBucket.Available | crates/subetha-cxc/benches/shared_rate_limiter.rs:61-67 | returns the most that would be granted now |
| RateLimiter.GrantedIffCovered | crates/subetha-cxc/benches/shared_rate_limiter.rs:50-60 | less than a turn of the clock after the last refill, a request is granted if and only if the tokens left and what the rate has given since cover it, up to the capacity |
| RateLimiter.ElapsedAtMost | crates/subetha-cxc/benches/shared_rate_limiter.rs:53 | the wrapped clock never shows more time than has passed |
| RateLimiter.AnyWindow | crates/subetha-cxc/benches/shared_rate_limiter.rs:41-60 | in any window of any run, across clock wraps, at most the capacity plus the whole tokens the rate gives in the window are granted |
| RateLimiter.BoundedIffOrdered | crates/subetha-cxc/benches/shared_rate_limiter.rs:41-60 | for readings not before creation and with no step back of half a turn or more, the bound holds for every limit, request and window if and only if the readings are in order |
| RateLimiter.OrderIsNeeded | crates/subetha-cxc/benches/shared_rate_limiter.rs:50-54 | two requests with readings that go back get more than the bound |
| Broadcast.InProcBroadcast.constructor | crates/subetha-cxc/benches/shared_broadcast_ring.rs:52-59 | a new queue is empty and has no consumers |
| Broadcast.InProcBroadcast.Register | crates/subetha-cxc/benches/shared_broadcast_ring.rs:60-66 | a new consumer starts after the newest value |
| Broadcast.InProcBroadcast.TryPush | crates/subetha-cxc/benches/shared_broadcast_ring.rs:67-84 | accepts exactly when there is room or every consumer has had the oldest value |
| Broadcast.InProcBroadcast.TryRecv | crates/subetha-cxc/benches/shared_broadcast_ring.rs:85-94 | gives the consumer its next value, if there is one |
| Broadcast.InProcBroadcast.Lag | crates/subetha-cxc/benches/shared_broadcast_ring.rs:95-100 | returns how many receives in a row would give the consumer a value |
| Broadcast.BacklogIsRest | crates/subetha-cxc/benches/shared_broadcast_ring.rs:85-100 | receiving until nothing is left gives the consumer the queue from its place on, in order |
| Broadcast.HistoryExtends | crates/subetha-cxc/benches/shared_broadcast_ring.rs:60-94 | no history of calls is excluded |
| Broadcast.EveryConsumerGetsAll | crates/subetha-cxc/benches/shared_broadcast_ring.rs:60-100 | in every history each consumer has been given exactly the values accepted since it registered, in order, and those still missing are exactly what it would get by receiving on, as many as its lag; cursors stay in range and the length within the capacity |

## Left out

- SwapCellMachine.DropStep: a drop of the last reference runs the value's destructor, which may itself load or swap on the same thread (crates/subetha-core/src/swap_cell.rs:288-290); no such nesting is modelled.
- Memory orderings weaker than sequential consistency: the proofs do not speak about hardware reordering.
- Reuse of addresses by the allocator, and guards kept in thread-locals that are torn down after the record is given back.
- That every unused record becomes free again: a teardown-time read of an empty cell returns before a guard exists, and its record stays taken.
- More than one migration coordinator at a time, and `set_tag` on its own: the bump is a load followed by a store.
- The gates of `push` before the buffer is at hand, beyond `RingArm`: with accesses in one order, an armed ring always has its buffer.
- Stamping of thread ids, and the wrap of their counter.
- The trees under the lanes: only the walk with its cursor is modelled, not the B-tree, its epochs or concurrent writers.
- Floating-point division of scores, and the random search over tables, which only calls the scoring.
- The rest of the code-book: SIMD kernels, Reed-Solomon and the convolutional code around `gf`.
- Lock scheduling inside the bucket and the queue: each method is one step.
- CPU queries, the axis signature, launchers and the other benches and examples, which would only add easy members.
