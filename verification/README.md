# The model-object manager, modelled and proved

This project models the part of MLOS that keeps model state in a fixed memory: the arena, the object
table, the manager that joins them, the policies that choose what to throw out, the simulator that
predicts what the kernel will count, the scheduler that decides whose turn it is, admission, the
degradation ladder, and the byte queue below the shell.

Each core file is modelled twice where it updates state in place. What an operation means is a function
on values (`Kernel.State`, `ArenaModel.Region`, `Simulation.Residence`, `LanesModel.Board`,
`FlatModel.Deck`, `SqueezeModel.Squeeze`). What the source does is a class or a method with the
source's own fields, loops and order of updates (`ArenaModel.Arena`, `TableModel.Table`,
`SessionTable.Sessions`, `StreamModel.Stream`, `ManagerModel.Manager`, `Simulator.Resident`,
`LanesModel.Lanes`, `FlatLanesModel.FlatLanes`, the methods of `LadderManager`), proved to compute that
function. The theorems are lemmas about the functions, so they hold of the code.

Main results, in the order of the sections below:

- the arena's free list is determined by which bytes are free, `place` fails exactly when no run is long
  enough, and a refused release changes nothing;
- the table is a finite map under every interleaving of its operations;
- every run of the manager conserves the arena, the counters and every session's account, byte for byte; where
  reads fail, exactly their bytes are in use for nobody and every other account is kept;
- admission begins a session exactly when four plain conditions hold, and gives the first that fails as its reason;
- an acquire answers with the object's own bytes, none of them free or another's, and otherwise with exactly the
  error its first unmet condition has; evictions, releases and endings likewise say what they did;
- with at most 62 residents no release is refused, and every acquire the arena could hold succeeds; with 63 a
  run from a new manager has every eviction refused;
- the tick scans of FIFO and LRU are list policies;
- the kernel replay and the simulator count the same, for every trace, policy and budget;
- after every access of every replay, the simulator's or the kernel's, each resident's stored next use is its
  next access;
- next-use is Belady's rule on equal objects, in the simulator and in the kernel, exactly while one recovery
  costs no more than `SCALE`;
- with no empty token both schedules serve every access once and in lane order; with empty ones process-major
  does exactly when nothing that holds an access comes after one, and parameter-major without ceilings exactly
  when nobody has more than one access at or after the number of one; process-major is whole tokens,
  parameter-major without ceilings is lockstep, and identical lanes read once for all;
- where each ceiling covers a token of every other contracted session, none waits past its ceiling by more than
  those tokens; and for sessions of one ceiling, twice the ceiling bounds every wait exactly when it covers them;
- the kernel's flat lanes order exactly as the host's driver;
- the ladder's arithmetic: what every block is on every rung, what a descent reads, to the byte, and what a squeeze
  reports, which is what it did; the walk's safety and termination, and its accounting: whatever capacities are
  declared, sessions cached, budgets squeezed to and blocks acquired or evicted between, the blocks in the table add up to what each session's rung
  needs, and its account is the resident part of them;
- the queue under every interleaving of its two sides.

A policy is an arbitrary function of the resident set, the tick and the bytes wanted (`PolicyModel.Pick`),
so results that say "any policy" quantify over functions; the four policies are instances, and their scans
are proved to compute them whatever order the residents are offered in. Addresses, sizes and counts are
unbounded integers with the source's saturation written out where the source saturates.

## Where the code and its notes differ

The model follows the code.

- `docs/notes/mlos-sched.md` bounds a token's period by its own length plus twice the ceiling. That holds
  when ceilings cover each other's tokens, as admission requires (`Latency.WorstIsBounded`). For `k` contracted
  sessions of one ceiling and tokens of at most T, that bounds every period of every such set of lanes exactly
  when the ceiling is at least (k-1)T (`Uncovered.TwiceTheCeilingExactly`); below that some set of lanes keeps
  somebody longer, though never the lowest-numbered contracted session (`Uncovered.FirstIsPrompt`).
- Releasing is refused at 64 holes even where the release would join two of them
  (`crates/mlos-arena/src/lib.rs:102`, `ArenaModel.FullListRefusesAJoin`).
- A provider's read that fails leaves its bytes placed (`crates/mlos-objman/src/fault.rs:129-130`), so the
  arena then has more in use than the table can account for. `Conservation.AcquireKeeps` says exactly when and
  by how much, `Runs.EveryRunKeeps` adds it up over a run, and `Runs.FailedReadLeaks` is such a run.
- Next-use stops being optimal when one recovery costs more than `SCALE`; the machine's own weights cost
  4,000,000 to reload, which is more. `Misled.OptimalExactly` has the boundary, `Misled.Trace` a trace, and
  `Optimality.KernelOptimalExactly` the same boundary for the kernel.
- Admission multiplies tokens by sessions in saturating 32-bit arithmetic: past that a full table can be
  admitted whose ceilings do not cover each other (`Admission.AdmissionHonours`).
- `merge` promises every access of every lane; it stops at an empty token. No schedule ever serves what a lane
  has after one (`Stops.EmptyTokenStrands`); process-major serves everything exactly when nothing that holds an
  access comes after an empty token (`Stops.ProcessMajorServesExactly`), and parameter-major without ceilings
  exactly when nobody has more than one access at or after the number of an empty token
  (`Stops.ParameterMajorServesExactly`).
- `rewrite` tells the accounts only when the rounded size drops; `Shrink.RewriteKeeps` says exactly when
  that loses bytes, and `Descent.RewriteCanLose` that it can.
- `fits` compares saturated needs, so a room of 2^64-1 bytes fits anybody (`WalkModel.FitsExactly`,
  `WalkModel.SaturatedFits`).
- `consume` is documented to leave `share_count` unchanged; it does exactly unless the count was full or the
  object was not resident and had one (`Answers.SharesBalance`).
- `docs/notes/mlos-queue.md` says a byte is dropped when 64 are waiting; it is dropped at 63
  (`QueueModel.RefusedExactly`).

## Model

| member | source | states |
|---|---|---|
| Abi.IdRoundTrip | crates/mlos-abi/src/object.rs:44-71 | an id decodes to exactly the class and fields it was built from |
| Holes.GiveFrees | crates/mlos-arena/src/holes.rs:29-42 | giving a run back keeps the list sorted, non-empty, disjoint and never adjacent, frees exactly those bytes and adds exactly their number |
| Holes.TakeTakes | crates/mlos-arena/src/lib.rs:71-88 | first fit takes an aligned prefix of one free run and nothing else |
| Holes.ProperUnique | crates/mlos-arena/src/holes.rs:29-42 | two lists over the same free bytes are the same list |
| Holes.TakeFailsExactly | crates/mlos-arena/src/holes.rs:13-15 | `fits` is false exactly when no run of consecutive free bytes is long enough |
| ArenaModel.PlaceTakes | crates/mlos-arena/src/lib.rs:71-88 | a placement takes bytes all free before and none after, and `used` rises by exactly the rounded size |
| ArenaModel.PlaceFailsExactly | crates/mlos-arena/src/lib.rs:71-88 | `place` fails exactly when `fits` is false, which is exactly when no free run is long enough |
| ArenaModel.ReleaseFrees | crates/mlos-arena/src/lib.rs:93-111 | a release is refused exactly when the list is full, and otherwise frees exactly the bytes given |
| ArenaModel.RegionDetermined | crates/mlos-arena/src/lib.rs:93-111 | the list and `used` are determined by the bytes that are free: no history shows |
| ArenaModel.PlaceThenRelease | crates/mlos-arena/src/lib.rs:71-111 | a placement given straight back restores the region |
| ArenaModel.ReleasesCommute | crates/mlos-arena/src/lib.rs:93-111 | the order of two releases does not matter |
| ArenaModel.FullListRefusesAJoin | crates/mlos-arena/src/lib.rs:102 | a full list refuses even a release that would have shortened it |
| ArenaModel.Arena.Place | crates/mlos-arena/src/lib.rs:71-88 | the array, in place, becomes the list with the first fitting run shortened or closed up; on failure nothing changes |
| ArenaModel.Arena.Release | crates/mlos-arena/src/lib.rs:93-111 | the array, in place, becomes the list with the run given back and joined; refused, nothing changes |
| ArenaModel.Arena.Merge | crates/mlos-arena/src/holes.rs:29-42 | the array, in place, becomes the list with an entry joined to the one after it and then to the one before, as a value; `Holes.GiveFrees` says what that list is |
| TableModel.LiveIsMet | crates/mlos-objtab/src/probe.rs:13-23 | a live id is met on its probe path before any vacant slot |
| TableModel.RemoveKeeps | crates/mlos-objtab/src/table.rs:98-110 | a tombstone forgets one id and hides no other |
| TableModel.Table.Find | crates/mlos-objtab/src/table.rs:69-78 | probing finds the slot of an id or proves its absence |
| TableModel.Table.Get | crates/mlos-objtab/src/table.rs:69-78 | looking up is the map's lookup |
| TableModel.Table.Insert | crates/mlos-objtab/src/table.rs:47-64 | inserting is the map's update, refused exactly when the id is absent and no slot is vacant, and then nothing changes |
| TableModel.Table.Update | crates/mlos-objtab/src/table.rs:81-95 | writing through `get_mut` changes that entry alone |
| TableModel.Table.Remove | crates/mlos-objtab/src/table.rs:98-110 | removing takes exactly that id out of the map |
| SessionModel.CreateExactly | crates/mlos-session/src/table.rs:16-45 | a session is refused exactly when no slot is free, and gets the lowest id nobody has |
| SessionModel.BegunAfresh | crates/mlos-session/src/table.rs:16-45 | a session begun is charged nothing, on the top rung and has been delivered nothing, and its slot is the only one written |
| SessionModel.ChargeThenCredit | crates/mlos-session/src/budget.rs:30-53 | a charge moves one account by exactly its bytes, never past its ceiling, and a credit undoes it |
| SessionModel.ChargeDelivers | crates/mlos-session/src/budget.rs:30-46 | a charge raises the peak to the account and the coarsest precision to this one where they are more, and nothing else but the account |
| SessionModel.TookDelivers | crates/mlos-session/src/contract.rs:87-91 | the worst period is the worse of what it was and this one, and nothing else changes |
| SessionTable.Sessions.Charge | crates/mlos-session/src/budget.rs:30-46 | the slots, in place, become the charged ones, or stay as they were |
| SessionTable.Sessions.Create | crates/mlos-session/src/table.rs:16-23 | the slots, in place, gain the new session |
| SessionTable.Sessions.Destroy | crates/mlos-session/src/table.rs:49-52 | the slot of that session is cleared and no other |
| SessionTable.Sessions.Took | crates/mlos-session/src/contract.rs:87-91 | the worst period of that session alone is raised to the longer of the two |
| Admission.PromisesKept | crates/mlos-admit/src/lib.rs:63-81 | both promises hold after every run of creations and destructions |
| Admission.AdmissionHonours | crates/mlos-admit/src/latency.rs:16-50 | from an empty table admitted contexts always fit the budget, and every ceiling covers the tokens ahead of it exactly when a full table of tokens fits 32 bits |
| Admission.AdmitsExactly | crates/mlos-admit/src/lib.rs:63-81 | a session is begun exactly when a slot is free, its context fits its own ceiling and the bytes nobody was promised, and its ceiling is a quarter token at least and every ceiling covers the contracted sessions ahead; each reason to refuse is given exactly when it is the first of these to fail |
| Admission.RefusalSays | crates/mlos-admit/src/lib.rs:63-81 | a refusal carries the need, and the less that there was for it |
| PolicyModel.BestIsVictim | crates/mlos-policy/src/nextuse.rs:36-50 | there is one best resident, so no order of enumeration shows in a victim |
| PolicyModel.VictimExactly | crates/mlos-policy/src/nextuse.rs:36-82 | on the residents' own fields: FIFO's victim was placed first, LRU's used longest ago, and next-use's is the furthest away for the lesser of its two costs, at least one, times its holders, at least one; known, likely and undeclared next uses each at their own distance; ties to the lower id; demand names nobody |
| PolicyModel.Oldest | crates/mlos-policy/src/baselines.rs:52-66 | the scan over any listing finds the resident with the smallest tick, ties to the lower id |
| PolicyModel.MostEvictable | crates/mlos-policy/src/nextuse.rs:36-82 | the scan over any listing finds the resident furthest away per unit of recovery cost, ties to the lower id |
| PolicyModel.Choose | crates/mlos-policy/src/baselines.rs:20-22 | demand names nobody, the others their victim |
| StreamModel.Chain | crates/mlos-stream/src/chain.rs:17-35 | each position gets the least later position of its object or none, failing exactly when a buffer is too small for the length or the distinct count |
| StreamModel.Stream.NextAfter | crates/mlos-stream/src/lib.rs:65-78 | the constant-time answer at the cursor is the linear scan's |
| StreamModel.Stream.Declare | crates/mlos-stream/src/lib.rs:37-45 | a declaration with too short a chain is refused and changes nothing |
| ManagerModel.Manager.Evict | crates/mlos-objman/src/evict.rs:70-87 | the arena, counters, account and entry become what evicting makes of the manager as a value |
| ManagerModel.Manager.MakeRoom | crates/mlos-objman/src/evict.rs:48-64 | the loop stops where the value does: room made, no victim, or a refusal |
| ManagerModel.Manager.Place | crates/mlos-objman/src/fault.rs:120-144 | placed, then read, then recorded; a failing read, and an id the table does not have, leave the bytes placed |
| ManagerModel.Manager.Admit | crates/mlos-objman/src/fault.rs:84-106 | charged before room is made, given back when the placement fails |
| ManagerModel.Manager.Service | crates/mlos-objman/src/fault.rs:57-79 | a missing provider or an undecodable class is refused before anything is attempted |
| ManagerModel.Manager.Acquire | crates/mlos-objman/src/lib.rs:101-119 | the clock ticks and the stream is asked once, whichever path serves; `Answers.AcquireAnswers` says of whose bytes the handle is |
| ManagerModel.Manager.Release | crates/mlos-objman/src/lease.rs:60-66 | a counted lease on a resident is given back and nothing else changes |
| ManagerModel.Manager.Consume | crates/mlos-objman/src/lease.rs:71-75 | an acquire and its release |
| ManagerModel.Manager.Register | crates/mlos-objman/src/lib.rs:122-128 | refused exactly when the id is new and no slot is vacant |
| ManagerModel.Manager.CreateSession | crates/mlos-objman/src/session.rs:17-23 | admission as `Admission.AdmitsExactly` has it, then the first free slot under the lowest id nobody has |
| ManagerModel.Manager.DestroySession | crates/mlos-objman/src/session.rs:29-46 | evicts and forgets what the session owns in slot order, stopping at a refusal with what went before already gone; the slots meet every object of the table, so every account kept before is kept after |
| Conservation.EvictKeeps | crates/mlos-objman/src/evict.rs:70-87 | an eviction keeps every account or changes nothing; the class check after the release never fails |
| Conservation.MakeRoomKeeps | crates/mlos-objman/src/evict.rs:48-64 | making room keeps everything but its victims' residency |
| Conservation.AcquireKeeps | crates/mlos-objman/src/fault.rs:57-144 | an acquire keeps every account exactly unless a read fails after its bytes were placed; then exactly those bytes are in use for nobody and every other account is kept |
| Answers.StartsWithNothing | crates/mlos-objman/src/lib.rs:71-86 | a new manager has no object and no session, has counted nothing, has every byte free, and admits anyone without ceilings |
| Answers.AcquireAnswers | crates/mlos-objman/src/lib.rs:101-119 | an acquire that succeeds hands out the object's own bytes, as many as registered, none free and none another's, a hit's where they were; the entry is claimed at this tick, the others are as they were or thrown out, and a fault of its class is counted unless it was a hit |
| Answers.AcquireRefusesExactly | crates/mlos-objman/src/fault.rs:57-144 | exactly when an acquire succeeds and which error it is otherwise: unknown, no provider, no class, the ceiling, no run of bytes, the read's own; a hit is never refused |
| Answers.ConsumeAnswers | crates/mlos-objman/src/lease.rs:71-75 | a pass over an object answers as its acquire does, and honestly after its claim is back |
| Answers.ReleaseAnswers | crates/mlos-objman/src/lease.rs:60-66 | one counted claim on one resident is given back and nothing else changes; only an unknown object is refused |
| Answers.SharesBalance | crates/mlos-objman/src/lease.rs:68-75 | taken and given back, a lease leaves the share count as it was exactly unless it was full, or the object was not resident and had one |
| Answers.EvictAnswers | crates/mlos-objman/src/evict.rs:70-87 | an eviction says the bytes it freed, frees exactly those, counts one, and sends the entry home; each error exactly when |
| Conservation.CeilingRefusalEvictsNothing | crates/mlos-objman/src/fault.rs:84-92 | an acquire a ceiling refuses moves the clock and nothing else |
| Conservation.RegisterKeeps | crates/mlos-objman/src/lib.rs:122-128 | registering something not resident keeps every account |
| Conservation.DestroyKeeps | crates/mlos-objman/src/session.rs:29-46 | ending a session, or failing to, keeps every account; ended, nothing of its own is left and nothing else was touched |
| Answers.DestroyAnswers | crates/mlos-objman/src/session.rs:29-46 | ending a session says how many residents were its own |
| Runs.EveryRunKeeps | crates/mlos-objman/src/fault.rs:57-144 | over every run, whatever its reads do, each class and each account equal their sums, no ceiling is passed, live extents are disjoint, and `used` is the residents' rounded bytes and exactly those of the reads that failed |
| Runs.EveryRunConserves | crates/mlos-objman/src/fault.rs:57-144 | where the reads succeed, the residents' extents and the free list tile the arena too |
| Runs.NewManagerConserves | crates/mlos-objman/src/fault.rs:57-144 | both, of every run from a new manager |
| Runs.FailedReadLeaks | crates/mlos-objman/src/fault.rs:129-130 | from every new manager, two operations after which 16 bytes are in use and the table accounts for none |
| Runs.HolesBounded | crates/mlos-arena/src/lib.rs:93-111 | there are never more holes than residents and one |
| Runs.FewResidentsEvict | crates/mlos-objman/src/evict.rs:70-87 | with at most 62 residents no eviction is refused |
| Tight.OneMoreIsRefused | crates/mlos-arena/src/lib.rs:102 | the bound is exact: a run from every new manager of 127 places, each filled and every other one emptied, leaves 63 residents, a full list and every eviction refused |
| Runs.RoomIsMade | crates/mlos-objman/src/evict.rs:48-64 | however fragmented the arena, a policy that always names a resident makes room for anything the arena could hold empty |
| Runs.AcquireSucceeds | crates/mlos-objman/src/lib.rs:101-119 | under FIFO, LRU or next-use and at most 62 residents, every acquire the arena could hold empty and the owner's ceiling allows succeeds |
| Ticks.VictimIsHead | crates/mlos-policy/src/baselines.rs:52-66 | the victim found by ticks is the head of the rule's list, and no other resident has its tick |
| Ticks.MakeRoomDropsPrefix | crates/mlos-objman/src/evict.rs:48-64 | making room under FIFO or LRU drops a prefix of that list |
| Ticks.EveryRunLists | crates/mlos-objman/src/lib.rs:101-119 | over every run below clock saturation the ticks stand for the list that the arrival or recency rule makes of the first one, operation by operation, and the victim is its head |
| Ticks.StartLists | crates/mlos-objman/src/lib.rs:101-119 | a new manager stands for the empty list |
| Simulator.Resident.Touch | crates/mlos-sim/src/resident.rs:39-49 | a hit updates that entry, a miss nothing but the cursor |
| Simulator.Resident.Insert | crates/mlos-sim/src/resident.rs:53-70 | placed and indexed, or refused |
| Simulator.Resident.Remove | crates/mlos-sim/src/resident.rs:74-84 | swap-remove keeps the index exact; a refused release changes nothing |
| Simulator.Resident.MakeRoom | crates/mlos-sim/src/run.rs:69-79 | the loop is the value's, and says how many it evicted |
| Simulator.Step | crates/mlos-sim/src/run.rs:25-39 | one access is the value's step |
| Simulator.Replay | crates/mlos-sim/src/lib.rs:39-57 | the whole replay is the value's |
| Tally.StepTallies | crates/mlos-sim/src/run.rs:25-79 | one access is one count, of what is held before and after it: a hit, a fetch with its bytes and cost, a refusal or a mismatch; evictions are the residents lost |
| Tally.ReplayTallies | crates/mlos-sim/src/run.rs:25-79 | after any number of accesses each has been counted once, and the residents are the fetched that were not evicted |
| Foresight.ChainIsTruth | crates/mlos-sim/src/foresight.rs:47-54 | the chain read at a tick is the tick of the next access |
| Foresight.ReplayTruthful | crates/mlos-sim/src/run.rs:25-65 | after every number of accesses of every replay, each resident's stored next use is its next access in what is left of the trace |
| Foresight.KernelTruthful | crates/mlos-objman/src/lib.rs:101-119 | the same of the kernel's table, after every access, whatever the policy, ceilings, providers, vacant slots and failing reads |
| Replay.Step | crates/mlos-lab/src/replay.rs:101-125 | one access through the manager, counted by differencing, is the value's step |
| Replay.Known | crates/mlos-lab/src/replay.rs:129-139 | registered unless known, refused exactly when no slot is vacant |
| Replay.Replay | crates/mlos-lab/src/replay.rs:49-68 | the stream declared over the order and advanced once an access gives the value's replay |
| Bisimulation.MakeRoomAgrees | crates/mlos-objman/src/evict.rs:48-64 | the kernel's loop and the simulator's evict the same victims and leave the same arena |
| Bisimulation.StepAgrees | crates/mlos-lab/src/replay.rs:101-125 | one access has the same outcome on both sides and keeps them in step |
| Bisimulation.KernelEqualsSimulator | crates/mlos-lab/src/replay.rs:99-125 | for every trace, policy and budget the kernel counts the simulator's hits, reads, bytes, evictions and refusals |
| Cache.Sooner | crates/mlos-policy/src/nextuse.rs:36-50 | holding what is wanted sooner never costs a read |
| Cache.FurthestIsBest | crates/mlos-policy/src/nextuse.rs:36-50 | at a miss on a full cache evicting what is wanted furthest away is as good as the best |
| Uniform.SlotsExactly | crates/mlos-sim/src/run.rs:42-79 | with one object size the arena has room exactly while one of its slots is free, and a list of at most one run when none is |
| Uniform.RemoveSlots | crates/mlos-sim/src/resident.rs:74-84 | with one object size an eviction from a full arena is never refused |
| Belady.StepCache | crates/mlos-sim/src/run.rs:25-79 | with one object size an access is a cache's: a hit, a free slot taken, or the policy's victim exchanged |
| Belady.AnyServes | crates/mlos-sim/src/run.rs:42-79 | whatever an always-naming policy evicts, its reads are reads that serve the trace |
| Belady.BestIsFurthest | crates/mlos-policy/src/nextuse.rs:56-82 | with one recovery cost no larger than the scale, next-use's victim is the resident wanted furthest away |
| Belady.NextUseIsOptimal | crates/mlos-policy/src/nextuse.rs:36-82 | next-use reads no more on any trace and budget than any policy that always names a resident |
| Misled.NextUseReadsFive | crates/mlos-policy/src/nextuse.rs:56-66 | past the scale two distances merge, and next-use reads at least five times on a trace |
| Misled.KnowingReadsFour | crates/mlos-sim/src/run.rs:42-79 | another policy reads four times on it |
| Misled.OptimalExactly | crates/mlos-policy/src/nextuse.rs:36-82 | next-use is optimal for a recovery cost exactly when the cost is no more than the scale |
| Optimality.KernelReadsFewest | crates/mlos-lab/src/replay.rs:101-125 | the kernel's own reads under next-use are the fewest there can be |
| Optimality.KernelMisled | crates/mlos-policy/src/nextuse.rs:56-66 | past the scale the kernel reads at least five times on the trace where another policy reads four |
| Optimality.KernelOptimalExactly | crates/mlos-lab/src/replay.rs:101-125 | the kernel reads fewest under next-use, for every manager, trace, policy and budget of equal objects, exactly when one recovery costs no more than the scale |
| ScheduleModel.Soonest | crates/mlos-sched/src/parameter.rs:21-29 | the session picked is live and before every other by token, index, sharing and number |
| ScheduleModel.FirstOverdue | crates/mlos-sched/src/parameter.rs:34-40 | the lowest session past its ceiling, or none is |
| ScheduleModel.PickExactly | crates/mlos-sched/src/parameter.rs:21-50 | parameter-major names a session exactly when it is the lowest past its ceiling or, nobody being past one, the first by token, then index, then the number of sessions waiting for the same object, most first, then its own number |
| ScheduleModel.PickIsMostWanted | crates/mlos-sched/src/parameter.rs:43-50 | nobody being overdue, at least as many wait for the object of the session picked as for that of any other at its position, and of equals it is the lowest |
| ScheduleModel.PickNamesLive | crates/mlos-sched/src/process.rs:21-37 | both rules name a live session, and name one while there is one |
| ScheduleModel.Scheduler.Next | crates/mlos-sched/src/process.rs:21-37 | the rule's own state and its answer are the value's |
| LanesModel.Lanes.Advance | crates/mlos-sched/src/lanes.rs:67-82 | the clock ticks, one cursor moves, and a token that ends reports its period |
| LanesModel.AdvanceRest | crates/mlos-sched/src/lanes.rs:67-82 | serving an access takes it off the front of its lane and touches no other |
| LanesModel.MergeTimed | crates/mlos-sched/src/merge.rs:38-52 | the driver's loop writes the value's trace and worst periods |
| MergeModel.EveryAccessInOrder | crates/mlos-sched/src/merge.rs:38-52 | whatever the lanes, each is served a prefix of what it asks for, in its own order |
| MergeModel.TraceRecords | crates/mlos-sched/src/merge.rs:38-52 | the trace has, for each access served, the session of its lane and the object at its place in it |
| MergeModel.MergeServesEveryAccess | crates/mlos-sched/src/merge.rs:31-52 | with no empty token both schedules serve every access of every lane exactly once and in lane order |
| MergeModel.EmptyTokenStops | crates/mlos-sched/src/merge.rs:43-45 | with an empty token the driver can stop before anything is served |
| MergeModel.ServesAllExactly | crates/mlos-sched/src/merge.rs:38-52 | every access of every lane is served in order exactly when the board the driver stops at has nothing left |
| Stops.EmptyTokenStrands | crates/mlos-sched/src/merge.rs:43-45 | under every schedule and whatever the other lanes, a lane with anything after an empty token is never served whole |
| Stops.ProcessMajorServesExactly | crates/mlos-sched/src/process.rs:21-37 | process-major serves every access of every lane exactly when no token that holds one comes after an empty token, by token number and then session |
| Stops.ParameterMajorServesExactly | crates/mlos-sched/src/parameter.rs:21-29 | parameter-major without ceilings does exactly when, wherever a token is empty, nobody has more than one access in the token of that number nor any after it |
| MergeModel.WorstIsLongest | crates/mlos-sched/src/merge.rs:38-52 | the worst period reported is the longest stretch of the trace between the ends of two of the lane's tokens |
| MergeModel.ParameterMajorIsLockstep | crates/mlos-sched/src/parameter.rs:21-29 | without ceilings the trace never goes back in (token, index): nobody starts a token before everyone has finished the last |
| Rounds.ProcessMajorIsByToken | crates/mlos-sched/src/process.rs:21-37 | process-major is the concatenation, over token number then session, of whole tokens |
| Latency.WaitIsBounded | crates/mlos-sched/src/parameter.rs:21-40 | with `k` contracted sessions, tokens no longer than T and ceilings at least (k-1)T, no wait ever passes its ceiling by more than (k-1)T |
| Latency.WorstIsBounded | crates/mlos-sched/src/merge.rs:38-52 | the worst period is at most the lane's own token, its ceiling and (k-1)T; with one contracted session its token and its ceiling |
| Latency.UncoveredWaitsLonger | crates/mlos-sched/src/parameter.rs:34-40 | three sessions whose ceilings do not cover each other's tokens, one of them kept past twice its own |
| Uncovered.FirstIsPrompt | crates/mlos-sched/src/parameter.rs:34-40 | covered or not, the lowest-numbered contracted session never waits past its ceiling |
| Uncovered.TwiceTheCeilingExactly | crates/mlos-sched/src/parameter.rs:21-40 | for every k, ceiling c and token length T, in every set of lanes of which k have ceiling c and no token is longer than T, no wait passes 2c, and no worst period the lane's longest token and 2c, exactly when c is at least (k-1)T |
| Latency.AdmittedWorstIsBounded | crates/mlos-admit/src/latency.rs:16-50 | after every run of admissions, sessions scheduled in tokens as long as promised are delivered their ceiling and a token a contracted session |
| FlatModel.CutOfFlat | crates/mlos-lab/src/lanes.rs:119-141 | cutting at the first tile recovers a workload's tokens |
| FlatModel.CutIsShape | crates/mlos-lab/src/lanes.rs:119-141 | the running token and index numbers are the positions of the tokens cut |
| FlatLanesModel.Fill | crates/mlos-lab/src/lanes.rs:119-141 | one session's objects and their places are copied in order, failing exactly when they do not fit |
| FlatLanesModel.Build | crates/mlos-lab/src/lanes.rs:64-84 | the buffers hold every named session's run, one after another, failing exactly when they are too small |
| FlatLanesModel.FlatLanes.Order | crates/mlos-lab/src/lanes.rs:89-113 | the loop writes the value's order and leaves its worst periods |
| FlatRefines.TwinsSeen | crates/mlos-lab/src/lanes.rs:38-56 | flat cursors show the schedule what the host's show it, and the wait never underflows |
| FlatRefines.KernelOrdersAsHost | crates/mlos-lab/src/lanes.rs:64-141 | for every trace, list of sessions and schedule the kernel's driver orders as the host's over the lanes the trace is cut into |
| FlatRefines.KernelRefinesHost | crates/mlos-lab/src/lanes.rs:64-141 | from a workload's merged trace either schedule gives what `merge_timed` gives on the workload's own lanes, order and worst periods |
| OneRead.ReadsPerTurn | crates/mlos-sim/src/run.rs:25-79 | under any policy and budget reads are no more than the runs of equal accesses |
| OneRead.IdenticalLanesTakeTurns | crates/mlos-sched/src/parameter.rs:21-29 | identical lanes take every access together |
| OneRead.OneReadServesAll | crates/mlos-sched/src/parameter.rs:21-29 | for any number of identical lanes, any policy and any budget, reads are at most the accesses of one lane |
| LadderModel.HotIsFull | crates/mlos-ladder/src/fate.rs:57-73 | a hot block is full precision on every rung |
| LadderModel.DroppedStays | crates/mlos-ladder/src/fate.rs:57-73 | what a rung drops every deeper rung drops |
| LadderCost.RungsExactly | crates/mlos-ladder/src/fate.rs:51-73 | every block on every rung, by how many cold blocks are older and newer: halved, quartered, the older half folded into one, the older half of the rest dropped, all dropped |
| LadderCost.QualityIsServed | crates/mlos-objtab/src/meta.rs:174-181 | a rung that forgets nothing serves exactly the coarsest precision it leaves a block at; one that forgets serves the coarsest there is |
| LadderCost.RanksByBits | crates/mlos-ladder/src/fate.rs:38-46 | how many bits each precision keeps, and that the coarser of two is the one of fewer |
| LadderModel.NeedIsCharged | crates/mlos-ladder/src/lib.rs:61-69 | on L0 a context needs exactly what admission charges, for every shape and context |
| LadderModel.NeedFalls | crates/mlos-ladder/src/lib.rs:61-69 | no rung needs more than the one above |
| LadderCost.CostIsRewritten | crates/mlos-ladder/src/fate.rs:79-93 | a descent reads exactly the blocks still held in another form and those folded into a summary by a move from above L3 to L3 or L4, each at its bytes before |
| LadderCost.QuantizingCosts | crates/mlos-ladder/src/lib.rs:75-84 | from L0 or L1 to L1 or L2 that is all it held but the hot window |
| LadderCost.SummarisingCosts | crates/mlos-ladder/src/lib.rs:75-84 | from L2 to L3 it is the span: the bytes freed and the summary's; from L3 to L4 nothing |
| LadderModel.CostWithin | crates/mlos-ladder/src/lib.rs:75-84 | a move reads no more than was held |
| LadderModel.TruncationIsFree | crates/mlos-ladder/src/fate.rs:79-93 | moving to L5 reads nothing |
| LadderModel.CostTriangle | crates/mlos-ladder/src/lib.rs:75-84 | stopping on the way down is never cheaper |
| WalkModel.FitsExactly | crates/mlos-ladder/src/walk.rs:68-74 | for every declared budget, fitting is the summed needs being within what the reserve leaves, or that being the most 64 bits can count |
| WalkModel.SaturatedFits | crates/mlos-ladder/src/walk.rs:68-74 | in that room two sessions fit which need twice of it |
| WalkModel.OneRungAtATime | crates/mlos-ladder/src/walk.rs:35-63 | whoever the next rung would move is one rung above it |
| WalkModel.TerminatesExactly | crates/mlos-ladder/src/walk.rs:47-63 | somebody is ended exactly when the needs do not fit, nobody may go to any deeper rung, and it is the highest id holding a context |
| WalkModel.NextExactly | crates/mlos-ladder/src/walk.rs:35-63 | each of the walk's moves exactly when, on the sessions' own contexts, rungs and floors |
| SqueezeModel.DeepenMoves | crates/mlos-ladder/src/squeeze.rs:56-65 | a pass puts every session the rung would move on it and leaves the rest |
| SqueezeModel.PassMovesOneRung | crates/mlos-ladder/src/squeeze.rs:56-65 | every session a pass moves goes exactly one rung |
| SqueezeModel.DeepenFalls | crates/mlos-ladder/src/squeeze.rs:31-53 | each deepening pass leaves strictly less to give up |
| SqueezeModel.DestroyFalls | crates/mlos-ladder/src/squeeze.rs:31-53 | and so does each ending |
| SqueezeModel.SqueezeDescends | crates/mlos-ladder/src/squeeze.rs:31-53 | over a whole squeeze nobody climbs, passes its floor or is put on L6 or L7 |
| SqueezeModel.SqueezeStops | crates/mlos-ladder/src/squeeze.rs:31-53 | a squeeze that says the sessions fit is right; one that does not has nothing left to give up or met a refusal |
| SqueezeReport.ReportIsTrue | crates/mlos-ladder/src/squeeze.rs:17-53 | the report of a squeeze: as many terminated as are gone; read what walking each session from its rung to its rung costs, if none is gone, and at least that of those left; L7 exactly if somebody was ended, else L6 exactly if it does not fit, else the deepest rung anybody was moved to |
| SqueezeReport.StepDelivers | crates/mlos-ladder/src/squeeze.rs:70-92 | what a step records of its session: rung, deepest, read and coarsest, and nothing else |
| Shrink.ResizedScales | crates/mlos-ladder/src/squeeze.rs:107-109 | requantizing scales an entry's bytes by the bits it keeps and never adds any, for every size and every precision but Q3 |
| Shrink.RewriteKeeps | crates/mlos-ladder/src/squeeze.rs:96-120 | a refused rewrite changes nothing, and a rewrite keeps every account exactly unless a resident block shrinks within its rounded size or any block is left with no bytes |
| Shrink.SmallBlockLoses | crates/mlos-ladder/src/squeeze.rs:107-119 | a resident 16-byte block requantized to half loses eight bytes nobody is told of |
| Descent.RewriteCanLose | crates/mlos-ladder/src/squeeze.rs:107-119 | a manager with every account kept and such a block can be reached |
| LadderedModel.RequantizedOnce | crates/mlos-ladder/src/squeeze.rs:107-109 | requantizing from where a block is gives what quantizing once from full size would |
| LadderExact.StepLadder | crates/mlos-ladder/src/squeeze.rs:70-92 | a step keeps every account; unrefused, every cache is exactly its rung's |
| SqueezeExact.SqueezeLadder | crates/mlos-ladder/src/squeeze.rs:31-53 | a squeeze keeps every account whatever is refused, and every cache exactly its rung's when nothing is |
| LadderSum.LadderIsExact | crates/mlos-ladder/src/lib.rs:61-69 | the blocks in the table add up to what the rung needs |
| LadderSum.ResidentIsCache | crates/mlos-session/src/budget.rs:30-53 | a session's account is exactly the resident part of its cache, when its cache is all it has resident |
| ArrivalLadder.ArriveLadder | crates/mlos-ladder/src/walk.rs:81-102 | an arrival placed in full leaves its cache exactly on the top rung and every other cache on its own |
| ArrivalLadder.ArrivalCounts | crates/mlos-ladder/src/walk.rs:81-102 | an arrival counts the entries it added to the table, one registered last and not read aside |
| Arrival.BlockEntry | crates/mlos-ladder/src/walk.rs:81-102 | a block's entry is its template's but for its owner and the bytes of its own tokens |
| LadderRuns.LadderAccountsExactly | crates/mlos-ladder/src/squeeze.rs:31-120 | from a new manager, after any capacities declared, arrivals and squeezes run to their ends, and acquires, releases, evictions and sessions ended in any order, every cache adds up to its rung's need, and every account is exactly its resident part |
| Descent.SqueezeGives | crates/mlos-ladder/src/squeeze.rs:31-53 | a squeeze that has to deepen leaves somebody deeper or gone |
| Descent.RungsAreWalked | crates/mlos-ladder/src/squeeze.rs:31-120 | such runs reach L1, L2 and L4: a block cached, requantized twice and dropped |
| LadderRuns.SqueezeSmooth | crates/mlos-ladder/src/squeeze.rs:96-120 | with at most 62 residents no squeeze meets a refusal |
| LadderManager.Rewrite | crates/mlos-ladder/src/squeeze.rs:96-120 | the table, arena, counters and account become what the value's rewrite makes of them |
| LadderManager.StepDown | crates/mlos-ladder/src/squeeze.rs:70-92 | the walk over the table's slots is the value's step |
| LadderManager.DeepenEach | crates/mlos-ladder/src/squeeze.rs:56-65 | the walk over session slots is the value's pass |
| LadderManager.SqueezeDown | crates/mlos-ladder/src/squeeze.rs:31-53 | the loop ends, leaving the manager and the report the value's squeeze over all the table does, every account kept, and every cache on its rung unless something was refused |
| ArrivalManager.Arrive | crates/mlos-ladder/src/walk.rs:81-102 | admission and prefill leave what the value's arrival does, and count the blocks placed |
| QueueModel.Queue.Push | crates/mlos-queue/src/lib.rs:34-45 | uninterrupted, a byte joins the end unless 63 are waiting |
| QueueModel.Queue.Pop | crates/mlos-queue/src/lib.rs:48-58 | uninterrupted, the oldest byte leaves |
| QueueModel.EveryInterleaving | crates/mlos-queue/src/lib.rs:34-58 | under every interleaving the bytes popped are a prefix of those accepted and at most 63 are pending |
| QueueModel.NoUnreadOverwritten | crates/mlos-queue/src/lib.rs:42 | the slot a push writes holds no unread byte |
| QueueModel.RefusedExactly | crates/mlos-queue/src/lib.rs:37-52 | a push is refused exactly when 63 are unread as it reads the other index, and a pop finds nothing exactly when none is |

## Left out

- The event ring, the metrics ratios, the headline numbers and the hit, fetched and registered counters: one-line arithmetic over what is modelled. Of the counters only held bytes and faults are kept.
- Provider internals, device timing and the bytes copied: a provider is a table slot that is filled or not and an arbitrary result a read.
- `handle` and `mutability` in an object's entry: nothing here reads them.
- `Lease::pins`: eviction does not consult it, so nothing is claimed of pinned objects.
- Hardware crates, virtio drivers, boot code, the command line and the shell: input and output.
- Layout, snapshot, image, trace and event text formats, and `enrol` and `read` of the lab's replay: parsing and buffers.
- Atomics memory ordering in the queue: each load and store is one step, in one order.
- Machine widths of counts that only grow (the lanes' clock and dues, `recomputed`, evictions, the simulator's counts): unbounded, where the source would overflow after 2^32 accesses or 2^64 bytes.
- Refusals of `create_session` inside the manager: `None`, where the source says which; `Admission.Admit` has the reasons.
- ManagerModel.Manager.Register: requires a size, no address and an id that is not resident, which the source leaves to its callers.
- ManagerModel.Manager.Place: requires an object that is not resident, as its one caller gives it.
- Simulator.Resident.Insert: requires an id that is not held, as its one caller gives it; the source would index it twice.
- Tight.OneMoreIsRefused: one arena of 127 places of 16 bytes, at any address.
- Runs.EveryRunConserves: runs in which a read fails are `Runs.EveryRunKeeps`, where the lost bytes are counted but not where they lie.
- Bisimulation.KernelEqualsSimulator: objects whose class does not decode, providers that are missing or fail, and a table with fewer slots than distinct objects, are outside it; the kernel refuses there and the simulator has nothing to refuse.
- LadderModel.NeedIsCharged: the product in `full` is unbounded, where the source's 64-bit one would overflow before admission's saturates.
- LadderManager.SqueezeDown: requires accounts in step and no block past its rung, which every arrival and squeeze keeps; sizes below whole units of 64 bytes, where `rewrite` loses bytes, are outside it.
- ArrivalManager.Arrive: requires blocks named by their owners and a context whose blocks 16 bits can number, which the source leaves to its callers.
- LadderRuns.LadderAccountsExactly: reads that fail, arrivals cut short, and squeezes or endings refused end the runs it covers, and nothing but blocks and sessions that cache nothing is registered or begun beside the arrivals; `SqueezeExact.SqueezeLadder` says what a refusal leaves, `LadderRuns.SqueezeSmooth` when there is none.
- MergeModel.ServesAllExactly: no condition on the lanes alone is stated for parameter-major with ceilings, where an overdue lane may reach its empty token at any time.
- Shrink.ResizedScales: not of Q3, whose three bits do not divide sixteen; no rung uses it.
- SqueezeReport.ReportIsTrue: what is read of sessions that are then ended is counted, but only bounded from below here.
- LadderSum.LadderIsExact: says what 64 bits can, since `need` saturates.
