# The pool's Worker, modelled and proved

This project models the decision code of the Worker that runs the package pool
— which queued task a claiming host is leased, what a release selects and what
garbage collection may delete, how a lease ends, which orders the pool may
issue, and how a passkey's bytes are read — and proves what that code is relied
on for: over every run, every interleaving and every input, not over examples.
Each decision is plain code over rows and a clock, so a row is a value or a
field, a batch of statements is one step, a conditional `UPDATE` or `INSERT` is
its guard and its effect, and a time is an integer of milliseconds.

`dafny verify dfyconfig.toml` checks everything.

## What is where

- **Releases** — `ReleaseLog` (the tables and what one step writes),
  `ReleaseStore` (the same as loops over mutable tables: reconstruction,
  retention, collection), `ReleaseSafety` (what every step keeps), `ReleaseRuns`
  (whole runs, and when a collection or a delete loses a protected release),
  `ReleaseServed` (which release's packages the live databases list),
  `ReleaseLosses` (four runs that lose a package). In those a release or a
  collection is one step; `ReleaseRaces` takes them apart — a release's two
  reads and its batch, a collection's list, prune, flags, deltas and each delete
  — and says what every interleaving keeps, `ReleaseOutcomes` and
  `ReleaseRollbacks` what depends on what landed in between, `ReleaseSerial` that
  the runs above are the ones with nothing in between, `ReleaseRaceLosses` three
  interleavings that lose something. `ReleaseLaws` says what a ring serves after
  a release, package by package; `ReleaseChains` what is read along a chain of
  releases: how far back one is rebuilt from, whose databases it carries, whose
  rows a render makes current, what retention protects.
- **The fleet scheduler** — `Fleet` and `Select` (what a claim weighs),
  `Selecting` (its loops), `Listing`, `Listed` and `Marking` (which tasks a claim
  lists, in which order and as which leases, and when a host is kept for a build,
  from the rows alone, if and only if), `SelectOrder`, `SelectStable`, `Deferral`,
  `FleetRuns`, `Reservation`, `HoldRuns`, `Marks` and `MarkRaces` (the hosts'
  marks when claims read before others write); `Queue` (the place a page shows);
  `Sums` (sums and filters over sequences).
- **Leases** — `Leases` (the guarded updates of a task's row), `LeaseRuns`
  (every interleaving: each write made on a row read at any earlier time, each
  new expiry fixed some time before the update that writes it, each token issued
  some time after), `LeaseEffects` (what each handler's write leaves of the row),
  `LeaseSafety` (who may
  end a lease, whose writes are taken, how often a lease is taken back).
- **Orders** — `Instance` (two processes on one token) and `CrashLoops` (what is
  told of them, from the list of claims), `Rules` and `RulesRuns` (the bounded
  automatic rules) and `RulesExact` (which claims write which line, from the log),
  `Caps` and `CapsRuns` (the caps inside one conditional `INSERT`) and `CapsExact`
  (which orders go in).
- **Parsers** — `Bytes`, `Texts` (UTF-8), `Cbor`, `CborWire` (the grammar),
  `CborTrip`, `AuthData`, `Der`, `Base64`.
- **Sizes** — `Sizing`, the learned size of a package's builds.

Where the source updates things step by step there is a class or a method with
its loops, proved equal to a function; the properties are lemmas about that
function.

## Where the code does not do what is said of it

Each is kept as the code has it, with a witness and the exact condition.

- `worker/src/webauthn.ts:121` says an integer past 2^53 is refused; -2^53 itself
  is taken (`CborTrip.LowestTaken`; the exact range is `CborTrip.DecodedInRange`).
- The decoder's `TextDecoder` drops a leading U+FEFF, so a text comes back whole
  exactly when it does not begin with one (`CborTrip.RoundTrip`), and two keys
  that differ only by it are one key (`CborTrip.MarkedKeysCollide`).
- `worker/src/webauthn.ts:285-286` says a long-form length is refused; the form
  `0x81` is taken, with any number of leading zero octets the width leaves room
  for. What is accepted is exactly `Der.RawExact`.
- `fromB64url` drops the unused bits of a last character, so two strings can
  give the same bytes (`Base64.BitsDropped`; exactly when is `Base64.ToFrom`).
- `worker/src/lease.ts:12-15` says every token of a lease has expired when the
  lease ends. An update's expiry is fixed before the update and its token's after
  it, in whole seconds, and an update fixed earlier may land later. On any run a
  token is gone with the lease exactly when no whole second fell between the
  time the last update to land fixed its expiry and the token's issue; so a token
  issued in time is gone with it exactly when no update whose expiry was fixed in
  an earlier second landed after its own (`LeaseSafety.TokenGone`). One 30 ms late
  outlives it (`LeaseSafety.LateTokenOutlives`), and so does one in time when an
  older heartbeat lands last (`LeaseSafety.MovedBackOutlives`).
- `worker/src/lease.ts:141-142` says a revoked lease is given back only while it
  is still the one read. A legacy worker's lease has no generation, so the
  worker's next lease of the same task can be given back in its place
  (`LeaseSafety.LegacyRevocationHitsNewer`), and a report of an earlier lease can
  end it (`LeaseSafety.LegacyReportHitsNewer`). Every word that passes the write's
  guard is of the lease held, if and only if that lease is a host's or its
  owner held no earlier one of the task (`LeaseSafety.WordsNameItExactly`); so is
  every row a revoked report was read from (`LeaseSafety.ReadsNameItExactly`).
- A report's outcome is decided on the row it read and written later, so a
  legacy worker's can queue a task that has no attempt left
  (`LeaseSafety.LegacyReportSlips`): exactly when it read an earlier lease of the
  same worker and the attempts were spent since (`LeaseSafety.SlipsExactly`).
- `worker/src/db.ts:190-197` says a head's carried databases are the last render
  of a release `carriedSince` reaches. One live object holds a ring's database,
  and the last render put wins, whichever release it is of: what is served is
  within that reach exactly when renders land in order
  (`ReleaseServed.OrderDecides`), and a late render leaves a head serving a
  package that is gone (`ReleaseLosses.LateRenderLoses`).
- `worker/src/routes/releases.ts:184-197` carries rows from up to twelve ancestors
  back, so that a ring goes on being served. Rows carried past a parent that has
  none make retention reach behind what was already collected, exactly then
  (`ReleaseRuns.ReachByRelease`), and a protected release can then be gone
  (`ReleaseLosses.GapReachesBack`).
- A collection that keeps fewer releases than a later one can take what the
  later one calls protected (`ReleaseLosses.SmallerKeepLoses`). What it leaves of
  a protected release is read exactly when it stands at or above the new base and
  no victim is of its selection (`ReleaseRuns.SmallerKeepExact`).
- A collection lists its victims and deletes each later, asking only whether a
  ring serves it (`worker/src/routes/gc.ts:93-124`). One taken back and dropped in
  between is lost to a protected release (`ReleaseLosses.LateDeleteLoses`),
  exactly when that release selects it and no ring serves it
  (`ReleaseRuns.DeleteExact`).
- Nothing serialises a collection against a release (`worker/src/routes/gc.ts:81`),
  nor two releases of a ring but for their number. A rollback writes its
  source's rows and its batch reads them again; a collection that listed before
  prunes them in between, a flagged release stands without a row, and the ring
  serves nothing (`ReleaseRaceLosses.PruneEmptiesRollback`). A rollback serves
  what it read exactly when all of it was stored, none of it was deleted and no
  collection that did not keep the release pruned in between
  (`ReleaseRollbacks.RollbackExactly`, `ReleaseSerial.RollbackOverlapped`).
- `worker/src/routes/releases.ts:251-253` says a release's rows are what it
  changed against its parent. The parent is read before the number
  (`worker/src/routes/releases.ts:76-108`): when another release of the ring lands
  between the two, the delta is against that one, and a later read of the
  release by its id writes and flags a selection it never had
  (`ReleaseRaceLosses.LateParentMisreads`). The selection is the parent's with
  the delta applied exactly when the release moves back whatever moved in
  between — always, when nothing landed (`ReleaseOutcomes.ParentExact`), which is
  when the parent read is still the head (`ReleaseOutcomes.ParentStill`).
- A package deleted after a release looked it up is served though it is gone
  (`ReleaseRaceLosses.DeleteBeforeBatch`): exactly then
  (`ReleaseRollbacks.AddsExactly`), and in no other way does a ring come to serve
  what is not stored (`ReleaseRollbacks.StepServes`).
- `worker/src/selection.ts:854` says one mark at a time. A claim writes its mark
  guarded on its own host's column, so a second one is set when another was set
  after the claim read (`MarkRaces.StaleReadsMarkTwo`), or when the marked host,
  away for four minutes, was not read (`MarkRaces.UnreadHostMarkTwo`); for no
  other reason (`Marks.SecondMark`, `Marks.OneMark`).
- `worker/test/orders-pure.test.ts:283` says at most two watchdog lines a day. The
  24 hours run from the exit that opened them, so the third of one day can be
  followed within the hour by the first of the next, and then its third
  (`CrashLoops.ThreeLinesADay`). Exactly the first and the third of each such day
  are told (`CrashLoops.WatchdogExactly`), and two first ones stand 24 hours apart
  (`CrashLoops.FirstsApart`).
- A job within the unit kept for pool jobs fits a host running none exactly when
  a task runs there or the host has that many units at all
  (`FleetRuns.KeptUnitServesAJob`).
- An emulated lane's wait is for somebody exactly when the build's owner is
  under their cap (`Deferral.WaitNotForNobody`); at the cap no claim lists it.

## Model

| member | source | states |
|---|---|---|
| `ReleaseStore.Index.Chain` | worker/src/db.ts:74-83 | the walk back ends at a checkpoint, at a missing parent or at the bound, and rebuilding is replaying that chain over its last release |
| `ReleaseStore.Index.Reconstructed` | worker/src/db.ts:84-98 | a head's live rows, or the deltas of the chain applied oldest first over the checkpoint's rows |
| `ReleaseStore.Index.Chunked` | worker/src/db.ts:99-115 | chunks of 2000 lose and repeat nothing, and the write fails exactly when a package of the selection is gone |
| `ReleaseStore.Index.EnsureCheckpoint` | worker/src/db.ts:67-118 | the release's rows and flag are written, or nothing is |
| `ReleaseStore.Index.ReleaseMembers` | worker/src/db.ts:40-45 | a head's live rows with nothing written, an older release's checkpoint rows otherwise |
| `ReleaseStore.Index.CarriedBack` | worker/src/db.ts:199-208 | the oldest release a head's carried databases go back to, over the architectures that await a render |
| `ReleaseStore.Index.Retention` | worker/src/db.ts:142-173 | the protected releases, the kept checkpoints and each ring's base, nothing more |
| `ReleaseStore.Index.Unreferenced` | worker/src/routes/gc.ts:23-36 | the packages no ring serves, no kept checkpoint lists and no protected delta names, past the grace: all of them, or the limit of them with the lowest ids |
| `ReleaseStore.Index.CollectGarbage` | worker/src/routes/gc.ts:61-125 | what one collection that nothing interrupts takes, and what it leaves of every table; statement by statement it is `ReleaseSerial.CollectAtOnce` |
| `ReleaseSafety.RebuildExact` | worker/src/db.ts:76-98 | with a checkpoint within the bound, the fold of the deltas over it is exactly what the release selected |
| `ReleaseSafety.RebuildFails` | worker/src/db.ts:76-83 | a chain with no checkpoint left in it is refused, never rebuilt short |
| `ReleaseSafety.SelectionExact` | worker/src/db.ts:84-98 | when releases of a ring do not overlap, a head reads its live rows and any other release its own selection, whenever it can be rebuilt |
| `ReleaseSafety.CheckpointedExact` | worker/src/db.ts:99-118 | reading a release writes its selection, and fails exactly when a package of it was collected |
| `ReleaseSafety.CheckpointKeeps` | worker/src/db.ts:114-117 | writing a checkpoint keeps every flag meaning its rows are the release's selection |
| `ReleaseSafety.BaseExact` | worker/src/routes/releases.ts:110-129 | a release starts from exactly what its base selected: the ring, another ring's head or an older release of the ring |
| `ReleaseSafety.PublishKeeps` | worker/src/routes/releases.ts:156-172 | a release whose reads nothing overlapped: its selection is its parent's with its delta applied, and the ring serves it |
| `ReleaseSafety.ReleaseKeeps` | worker/src/routes/releases.ts:56-224 | every release, promotion and rollback with nothing between its reads and its batch keeps the whole invariant |
| `ReleaseLaws.ServedAfter` | worker/src/routes/releases.ts:110-163 | after any release that goes through, of one architecture or both, the ring serves a package if and only if the request adds it, or it is stored, not dropped and was in the start: the source's selection, or what the ring served of the architecture left alone; the other rings serve what they did |
| `ReleaseLaws.GoesThrough` | worker/src/routes/releases.ts:59-129 | which requests go through, if and only if |
| `ReleaseLaws.ServedAtBatch` | worker/src/routes/releases.ts:136-163 | the same of a batch that runs late, from what its start is then |
| `ReleaseLaws.RunStarts` | worker/src/routes/releases.ts:61-129 | whatever lands in between, that start is the ring's own, what the source's ring serves, or the source's rows |
| `ReleaseChains.RebuildsExactly` | worker/src/db.ts:74-83 | a release is rebuilt if and only if a checkpoint stands in the chain of at most 96 it heads |
| `ReleaseChains.CheckpointExactly` | worker/src/routes/releases.ts:165-172 | a release is a checkpoint if and only if it is its ring's first, or none of the twenty-three before it is one |
| `ReleaseChains.CarriedExactly` | worker/src/routes/releases.ts:187-223 | a release carries the nearest rows of its parent and the twelve before it, none past one that has no package of the architecture, and awaits its own render or its parent's, if and only if |
| `ReleaseChains.LeftAloneExactly` | worker/src/routes/releases.ts:178-186 | which architecture a release leaves alone, if and only if |
| `ReleaseChains.PutExactly` | worker/src/routes/releases.ts:563-616 | whose rows a database put makes current: its release's, three generations of kin that had none, and those that waited with it |
| `ReleaseChains.FinishedExactly` | worker/src/routes/releases.ts:618-658 | whose rows the end of a render drops |
| `ReleaseChains.ProtectedExactly` | worker/src/db.ts:142-208 | retention protects the last releases kept and, while the head serves an architecture from before it, those back to the last that has it all, within 256 |
| `ReleaseSafety.NewestCheckpoint` | worker/src/routes/releases.ts:165-172 | a checkpoint is never further than the period behind any release |
| `ReleaseSafety.BaseMoves` | worker/src/db.ts:164-170 | a collection never moves a ring's base behind an earlier one's |
| `ReleaseSafety.Survives` | worker/src/db.ts:210-233 | a package of a protected release's selection is never outside retention |
| `ReleaseSafety.CollectKeeps` | worker/src/routes/gc.ts:61-78 | a collection keeps the invariant, with the floor it leaves |
| `ReleaseRuns.ReachByRender` | worker/src/routes/releases.ts:563-616 | a render put for any release, or its end, never takes retention further back |
| `ReleaseRuns.ReachByRelease` | worker/src/routes/releases.ts:184-223 | a release takes it further back if and only if it carries rows its own parent does not have |
| `ReleaseRuns.StepKeeps` | worker/src/db.ts:120-173 | every step of a run — uploads, releases, reads, renders put in any order, their ends, collections — keeps the whole index |
| `ReleaseRuns.StepGuards` | worker/src/db.ts:174-208 | no step but such a release makes retention reach behind what was already collected |
| `ReleaseRuns.RunKeeps` | worker/src/db.ts:120-233 | every run keeps the index whole |
| `ReleaseRuns.RunGuards` | worker/src/db.ts:174-208 | and, where no release carried rows past its parent, the guard |
| `ReleaseRuns.ProtectedReadable` | worker/src/db.ts:120-233 | after such a run, in which no collection overlaps a release or another, every package of every protected release is stored, and reading it by its id gives exactly the selection it published |
| `ReleaseServed.DatabasesStored` | worker/src/db.ts:174-208 | every release from the reach of a head's databases on is stored whole |
| `ReleaseServed.PublishShelved` | worker/src/routes/releases.ts:184-223 | a row carried awaits a render of its own selection, or is rendered with what the live database lists |
| `ReleaseServed.PutShelved` | worker/src/routes/releases.ts:563-616 | a render that lands in order — its own row, its kin's, those that awaited it — keeps every row vouching for the live database |
| `ReleaseServed.RunShelved` | worker/src/routes/releases.ts:531-658 | and so every run whose renders land in order |
| `ReleaseServed.ServedStored` | worker/src/db.ts:190-208 | the live database of an architecture lists what some release within retention's reach selects, and every package it lists is stored |
| `ReleaseServed.OrderDecides` | worker/src/routes/releases.ts:563-602 | after a render and a release that changes the architecture, the live database is within reach if and only if that render landed in order |
| `ReleaseRuns.RollbackExact` | worker/src/routes/releases.ts:110-163 | with nothing between its reads and its batch, a rollback to a protected release goes through, and the ring serves exactly that selection |
| `ReleaseRuns.SmallerKeepExact` | worker/src/routes/gc.ts:61-78 | what a collection keeping any other number leaves readable of a protected release, if and only if |
| `ReleaseRuns.DeleteExact` | worker/src/routes/gc.ts:81-124 | when a victim deleted after it was listed leaves a protected release readable, or one with its rows listing only what is stored, if and only if; asking retention again would be enough |
| `ReleaseRaces.StepKeeps` | worker/src/routes/releases.ts:56-224 | every read, batch and statement of overlapping releases and collections keeps this: a ring's releases are numbered without a gap, it serves its newest one's selection, and a delta kept is against the release before |
| `ReleaseRaces.RunKeeps` | worker/src/routes/gc.ts:61-124 | and so does every interleaving |
| `ReleaseOutcomes.LandsExactly` | worker/src/routes/releases.ts:105-108 | a release goes through exactly when no other of its ring landed since it read its number |
| `ReleaseOutcomes.ParentStill` | worker/src/routes/releases.ts:76 | the parent it read is still the head exactly when none landed since it read it |
| `ReleaseOutcomes.OverPrevious` | worker/src/routes/releases.ts:156-163 | on every interleaving a delta kept gives the release's selection from that of the one numbered before it |
| `ReleaseOutcomes.ParentExact` | worker/src/routes/releases.ts:76-163 | a release's selection is its parent's with its delta applied if and only if it moves back what the releases in between moved; always, when none landed |
| `ReleaseRollbacks.RowsStand` | worker/src/routes/gc.ts:65-68 | a release's rows stand until a collection that did not keep it prunes, exactly, while nobody writes them again |
| `ReleaseRollbacks.RollbackExactly` | worker/src/routes/releases.ts:110-163 | whatever lands between a rollback's read and its batch, the ring serves the rows it read if and only if they were stored, none was deleted and no such prune came in between |
| `ReleaseRollbacks.RollbackToHead` | worker/src/routes/releases.ts:117-129 | a rollback to the head read as parent serves what the ring serves at its batch: the head's selection when none landed and all of it is stored |
| `ReleaseRollbacks.StepServes` | worker/src/routes/gc.ts:79-124 | every ring serves stored packages after any step, if and only if the step is not the batch of a release one of whose adds is gone |
| `ReleaseRollbacks.RunServes` | worker/src/routes/gc.ts:79-124 | and on every interleaving with no such batch |
| `ReleaseRollbacks.AddsExactly` | worker/src/routes/releases.ts:86-103 | a batch is such exactly when one of its adds was deleted after it looked them up |
| `ReleaseSerial.ReleaseAtOnce` | worker/src/routes/releases.ts:56-224 | a release's reads and its batch with nothing in between are the release of the runs above |
| `ReleaseSerial.CollectAtOnce` | worker/src/routes/gc.ts:61-124 | and a collection's statements are its collection |
| `ReleaseSerial.SerialRun` | worker/src/db.ts:120-233 | every such run is an interleaving, to the same tables |
| `ReleaseSerial.RollbackOverlapped` | worker/src/routes/releases.ts:110-163 | after any such run, a rollback to a protected release that is no head, whatever follows its read: it goes through exactly when no other release of the ring landed, and then serves that release's selection if and only if nothing of it was deleted and no such prune came in between |
| `ReleaseRaceLosses.PruneEmptiesRollback` | worker/src/routes/gc.ts:64-68 | a witness: three releases, a collection that listed before the rollback's read |
| `ReleaseRaceLosses.LateParentMisreads` | worker/src/routes/releases.ts:76-108 | a witness: a release lands between another's reads of its parent and of its number |
| `ReleaseRaceLosses.DeleteBeforeBatch` | worker/src/routes/gc.ts:92-124 | a witness: a listed package deleted between a release's lookup and its batch |
| `ReleaseServed.UnchangedIs` | worker/src/routes/releases.ts:173-183 | an architecture a request could not have touched lists what the ring served |
| `ReleaseRuns.RunOrdered` | worker/src/db.ts:146-157 | releases of a ring are numbered without a gap on every run, so retention reads the newest ones |
| `ReleaseLosses.SmallerKeepLoses` | worker/src/routes/gc.ts:61-78 | a witness: six releases, a collection that keeps one, and a release three would protect |
| `ReleaseLosses.LateRenderLoses` | worker/src/routes/releases.ts:570-602 | a witness: the second release's render lands after the sixth's, and a collection takes a package the ring's database then lists |
| `ReleaseLosses.GapReachesBack` | worker/src/routes/releases.ts:596-611 | a witness: the kin a render marks end three generations down, and a release then carries the fourth's rows |
| `ReleaseLosses.LateDeleteLoses` | worker/src/routes/gc.ts:81-124 | a witness: a victim listed, taken back, dropped, then deleted |
| `Selecting.LargestSize` | worker/src/selection.ts:353-358 | the largest size a registration counted now runs |
| `Selecting.RoomOf` | worker/src/selection.ts:450-458 | a host's free units for a task and for a pool job |
| `Selecting.OwnersLeased` | worker/src/selection.ts:754-758 | each owner's community builds leased, over every lease |
| `Selecting.Passes` | worker/src/selection.ts:791-825 | one candidate passes exactly when every filter of the claim lets it |
| `Selecting.SelectFor` | worker/src/selection.ts:766-839 | the choices, in order, as their leases are written |
| `Selecting.ReservePass` | worker/src/selection.ts:864-897 | the mark to write and the marks that end |
| `Listed.ListedExactly` | worker/src/selection.ts:766-825 | from the rows alone, a claim lists a task if and only if it is one to choose from, the claimer takes its kind, has the lanes and the room, and leaves it to nobody |
| `Listed.ChosenExactly` | worker/src/selection.ts:821-839 | each choice is written with the units, size, disk, lane, turn and independence its task has on that claimer |
| `Listing.OrderedByRows` | worker/src/selection.ts:826 | after the entries put ahead the priority never falls, then the owner's leased builds, then the time queued with its lane's penalty, then the id |
| `Listing.AheadByRows` | worker/src/selection.ts:827-838 | ahead stand at most two: the task the claimer keeps its units for, and the first queued of those owed a turn on its emulated lane |
| `SelectOrder.RankedExactly` | worker/src/selection.ts:784-825 | a claim lists exactly the eligible candidates, each once |
| `SelectOrder.RankedOrder` | worker/src/selection.ts:826-838 | the reserved task first when it may be taken, then the starved emulated lane's oldest, then the rest by priority, the owner's leases, effective age and id |
| `SelectOrder.SortedFacts` | worker/src/selection.ts:826 | sorting loses and repeats nothing and orders every pair |
| `SelectOrder.OrderUnique` | worker/src/selection.ts:826 | the keys leave one order only |
| `SelectStable.ChoicesSame` | worker/src/selection.ts:766-839 | the result does not depend on the order candidates, members, leases or models are read in |
| `Deferral.WaitNotForNobody` | worker/src/selection.ts:494-510 | an emulated lane that waits leaves the candidate to a registration whose own claim lists it, exactly when its owner is under the cap |
| `Deferral.AuditNotForNobody` | worker/src/selection.ts:711-723 | the builder's machine leaves an audit only to a registration whose own claim lists it |
| `Deferral.NativeRoomTakes` | worker/src/selection.ts:486-510 | eligible native capacity passes every filter of its own claim |
| `Deferral.ElsewhereTakes` | worker/src/selection.ts:703-723 | so does another machine that could take an audit |
| `Deferral.CappedNowhere` | worker/src/selection.ts:820 | a candidate of an owner at their cap is on no claim's list |
| `FleetRuns.WrittenAsChosen` | worker/src/selection.ts:821-824 | a lease is written from its choice |
| `FleetRuns.RunWithin` | worker/src/selection.ts:450-479 | on any run of claims and lease ends a host's units, agent slots and disk are never oversubscribed, and the pool jobs' unit is kept whenever a task runs |
| `FleetRuns.KeptUnitServesAJob` | worker/src/selection.ts:444-458 | when a pool job within the kept unit fits a host running none |
| `FleetRuns.RunShares` | worker/src/selection.ts:785-817 | a host's emulated builds and trials are at most one or within their share |
| `FleetRuns.RunOwners` | worker/src/selection.ts:744-758 | no owner's community builds pass the cap |
| `Reservation.OneStandingMark` | worker/src/selection.ts:864-896 | at most one mark stands, and at most one registration carries one, after a pass if before it; a new one is on a host that could lease the build were it idle, for a build that fits nobody now |
| `Marking.MarkExactly` | worker/src/selection.ts:864-897 | a pass marks a host for a build if and only if no mark keeps one, the build is the first of the list a host could be kept for — queued half an hour, of two builds' units or more, not just marked, its owner under the cap —, it fits nobody now, and the host has the most room of those it would fit idle |
| `Marks.OneMark` | worker/src/selection.ts:854-860 | over any run of claims that read and write at any times, at most one host carries a mark, as long as each was set by a claim that read every marked host, with none set since |
| `Marks.SecondMark` | worker/src/routes/factory.ts:1391-1401 | when a batch leaves two marks, if and only if, and what it had not read |
| `MarkRaces.StaleReadsMarkTwo` | worker/src/routes/factory.ts:1400 | a witness: two claims read, then both write |
| `MarkRaces.UnreadHostMarkTwo` | worker/src/routes/factory.ts:834-838 | a witness: the marked host is away and not read |
| `Reservation.HoldTakesOnlyJobs` | worker/src/selection.ts:774-784 | while it holds, a host's claim lists pool jobs only |
| `Reservation.NobodyNative` | worker/src/selection.ts:891-892 | what fits nobody at the pass keeps no emulated lane waiting later |
| `Reservation.IdlePasses` | worker/src/selection.ts:888-890 | what the pass weighs of a host as if it held nothing |
| `Reservation.Delivers` | worker/src/selection.ts:835-837 | once the host's own tasks are gone the marked build fits and is its first choice |
| `HoldRuns.HoldShrinks` | worker/src/selection.ts:774-784 | while it holds, a host's task units never grow, on any run |
| `Queue.GreedySorted` | worker/src/queue.ts:19-24 | handing out by builds taken so far and id is the order by rank within the owner and id |
| `Queue.GreedyOrder` | worker/src/queue.ts:19-24 | every queue can be handed out so |
| `Queue.PlaceBounds` | worker/src/queue.ts:25-37 | the closed form is never too small, too large by exactly the builds it counts too many, at most one for each other owner with more builds than this one has ahead, exact for an owner's oldest; the total is the queue's length |
| `Leases.TaskRow.RequeueLease` | worker/src/lease.ts:42-54 | the requeue changes the row only while the lease is still the one read, and says so |
| `Leases.TaskRow.RequeueRevoked` | worker/src/lease.ts:144-176 | so does a revoked lease's |
| `LeaseRuns.StepKeeps` | worker/src/lease.ts:28-54 | every step of every interleaving, each write on a row read earlier, keeps the invariant of rows, tokens and reads |
| `LeaseRuns.RunKeeps` | worker/src/lease.ts:9-15 | and so does every run |
| `LeaseEffects.ClaimWrites` | worker/src/routes/factory.ts:1433-1440 | a claim leases a queued task and no other, for thirty minutes, one attempt more |
| `LeaseEffects.RequeueWrites` | worker/src/lease.ts:42-54 | a lease taken back spends its attempt: ten behind, failed when it was the last |
| `LeaseEffects.ReportWrites` | worker/src/routes/factory.ts:2013-2035 | what a completion or a failure leaves, on what was read, if and only if the lease is still held |
| `LeaseEffects.ReconcileWrites` | worker/src/routes/factory.ts:657-712 | what a host's claim leaves of a lease it lists or does not |
| `LeaseEffects.PriorityCounts` | worker/src/lease.ts:37-38 | on every run a task stands ten behind where it was queued for each attempt spent and each failure reported, and no more |
| `LeaseEffects.TokenLasts` | worker/src/routes/factory.ts:1746-1747 | a token lasts thirty minutes from the whole second of its issue |
| `LeaseSafety.TokenGone` | worker/src/routes/factory.ts:1735-1749 | on any run, a token is gone whenever its lease has expired, if and only if no whole second fell between the time the last update to land fixed its expiry and the token's issue; a timely one, if and only if that update fixed it in no earlier second |
| `LeaseSafety.EndsBySaying` | worker/src/lease.ts:9-54 | what ends a lease: its expiry, with every token no later than it, on a read of this lease unless that expiry was past when written; two of a host's claims; a stopped worker's claim; or its holder's report, of this lease if it is a host's or its owner's first |
| `LeaseSafety.WordsNameItExactly` | worker/src/routes/factory.ts:1671-1700 | every word that passes a write's guard is of the lease held, if and only if it is a host's or its owner's first of the task |
| `LeaseSafety.ReadsNameItExactly` | worker/src/lease.ts:133-146 | so is every row a revoked release's report was read from |
| `LeaseSafety.LostUnlistedTwice` | worker/src/routes/factory.ts:657-712 | a lease lost was missing from this claim of its host and from the last to write its count before the row was read, on every run |
| `LeaseSafety.OverForever` | worker/src/routes/factory.ts:1671-1700 | a lease ended, fenced or followed by another never comes back |
| `LeaseSafety.NoWriteAfter` | worker/src/auth.ts:25-44 | once a host's lease is over, no write with a token of it is accepted again, whatever follows |
| `LeaseSafety.OneWriter` | worker/src/lease.ts:14-15 | of two tokens accepted at once each is of the one lease held, or a legacy worker's |
| `LeaseSafety.BackOnce` | worker/src/lease.ts:120-131 | each lease is taken back at most once, and leases made are attempts and attempts given back |
| `LeaseSafety.SlipsExactly` | worker/src/routes/factory.ts:2013-2035 | a step queues a task with no attempt left if and only if it writes a report read of an earlier lease |
| `LeaseSafety.AttemptsLeft` | worker/src/routes/factory.ts:2013-2035 | a queued task has attempts left on every run none of whose reports slip |
| `LeaseSafety.HostsNeverSlip` | worker/src/routes/factory.ts:1671-1700 | and no host's report does |
| `LeaseSafety.AcceptedExactly` | worker/src/auth.ts:36-44 | whose pool-wide writes are accepted, if and only if: a held lease's, and a legacy token of an over one, unless its release is revoked |
| `LeaseSafety.LegacyReportHitsNewer` | worker/src/routes/factory.ts:1700 | a witness: a report of a legacy worker's first lease ends its second |
| `LeaseSafety.LegacyRevocationHitsNewer` | worker/src/lease.ts:133-146 | a witness: a legacy lease read, reported and taken again |
| `LeaseSafety.LegacyReportSlips` | worker/src/routes/factory.ts:2023-2035 | a witness: a failure read at the first attempt of two, written after the second began |
| `LeaseSafety.MovedBackOutlives` | worker/src/routes/factory.ts:1735-1736 | a witness: a heartbeat whose expiry was fixed first lands last, and a timely token of the other outlives the lease |
| `LeaseSafety.LateTokenOutlives` | worker/src/routes/factory.ts:714-718 | a witness: a token issued 30 ms after its lease began, past a whole second |
| `Instance.InstanceStep` | worker/src/orders.ts:482-586 | the step, column by column, computes the outcome the lemmas speak of |
| `Instance.RunNamed` | worker/src/orders.ts:493-505 | in a conflict every claim long enough after the other was recorded came from the process the row names |
| `Instance.EndsOnlyAlone` | worker/src/orders.ts:506-513 | a conflict ends only when every claim of the last ten minutes came from one process |
| `Instance.EndsAlone` | worker/src/orders.ts:468-473 | and it does end for a process that claims alone |
| `Instance.ReturnSeen` | worker/src/orders.ts:525-533 | a process back soon after another's first claim is seen |
| `CrashLoops.DeclaredExactly` | worker/src/orders.ts:553-583 | over any list of claims and finished tasks, a crash loop is declared exactly at the third process change in a row before which the process lived under ten minutes, finished nothing and ended unexplained |
| `CrashLoops.ClearedExactly` | worker/src/orders.ts:514-573 | and it ends exactly when a process that finished a task gives way, or when one claims thirty minutes after it took over |
| `CrashLoops.WatchdogExactly` | worker/src/orders.ts:556-567 | the watchdog's exits are counted within 24 hours of one that opens them, and told at the first and the third |
| `CrashLoops.FirstsApart` | worker/src/orders.ts:560-566 | two first exits told stand 24 hours apart |
| `CrashLoops.ThreeLinesADay` | worker/src/orders.ts:556-567 | a witness: three lines within three hours |
| `CrashLoops.TwoSeenExactly` | worker/src/orders.ts:525-539 | two processes are seen exactly when the one before the last is back within ten minutes of the last new one |
| `CrashLoops.OneAgainExactly` | worker/src/orders.ts:491-512 | it is one again exactly when the process named claims thirteen minutes after the name last moved; while two claim it moves at most every three |
| `RulesExact.WritesExactly` | worker/src/orders.ts:731-802 | on any run, which line a claim writes, if any, from the full log alone: a re-check, a restart and of which kind, or the end |
| `RulesExact.OnCondition` | worker/src/orders.ts:744-800 | a restart is ordered on the condition that the agent still does not answer, a re-check on none |
| `RulesExact.SpellExactly` | worker/src/routes/factory.ts:476-479 | the spell is as old as the first failing claim since the agent last answered |
| `RulesRuns.Progress` | worker/src/orders.ts:731-802 | on any run, a claim the rules may help, ten minutes into its spell and thirty after its last order, writes an order or the end, unless the end is in the log or three restarts stand in the last 24 hours |
| `RulesRuns.EndsInFour` | worker/src/orders.ts:744-802 | four such claims, thirty minutes apart, end a spell's restarts, unless at one of them the day's are spent |
| `RulesRuns.RunWarranted` | worker/src/orders.ts:731-802 | on any run every line of the full log was warranted by what its claim saw and the lines before it: none in conflict, while drained or for an error a restart cannot help; a restart of no host and no young process, that its worker takes and survives, the first ten minutes into the spell; the end after both restarts are thirty minutes old, or where the site refuses a shared first |
| `RulesRuns.DayAgrees` | worker/src/orders.ts:669-675 | at every decision the pruned day counts what the full log says of 24 hours |
| `RulesRuns.StepKeeps` | worker/src/routes/factory.ts:513-573 | every claim, its proposal accepted, dropped or ended by the site, keeps the counts and times the log's |
| `RulesRuns.RunKeeps` | worker/src/orders.ts:655-675 | and so does every run |
| `RulesRuns.RunBounded` | worker/src/orders.ts:84-89 | at most one re-check, two restarts and one end a spell, and three of each order in any 24 hours |
| `RulesRuns.RunApart` | worker/src/orders.ts:755-792 | restarts of a spell stand the spacing apart, only the first goes to a shared service, no re-check follows one, nothing follows the end |
| `Caps.OrderTable.Issue` | worker/src/orders.ts:1103-1114 | an order goes in exactly under every cap, and nothing else changes |
| `CapsExact.GoesInExactly` | worker/src/orders.ts:1085-1114 | which orders go in, from the rows alone, if and only if: six an hour for a worker's group, twenty or thirty stops for a login, sixty a day and ten restarts for the pool, forty and six of them the community's |
| `CapsExact.LoginNeverStarved` | worker/src/orders.ts:1098-1107 | a login under its own caps is never refused for what others did |
| `CapsRuns.CapHolds` | worker/src/orders.ts:1085-1110 | a cap holds in every half-open window of its span on every run, whatever the clock did |
| `CapsRuns.StopsHold` | worker/src/orders.ts:1105-1107 | a login's stops, thirty in any hour, wherever they go |
| `CapsRuns.RunCapped` | worker/src/orders.ts:84-116 | every cap in every hour and day: the worker's groups, the login, the pool, the community |
| `CapsRuns.ProjectNeverStarved` | worker/src/orders.ts:100-116 | the project's order passes the pool's budgets whenever it issued fewer than 20 in the day and 4 restarts in the hour |
| `Texts.DecodeEncode` | worker/src/webauthn.ts:152-161 | every text comes back from UTF-8 |
| `Texts.EncodeDecode` | worker/src/webauthn.ts:152-161 | every accepted byte string is one text's only encoding |
| `Cbor.DecodeCbor` | worker/src/webauthn.ts:123-192 | the decoder with its cursor and loops computes the function the grammar is proved against |
| `Cbor.DecodeMap` | worker/src/webauthn.ts:171-183 | a map's entries in order, the first refusal returned |
| `CborWire.HeadComplete` | worker/src/webauthn.ts:127-144 | every width a head may take reads back |
| `CborWire.HeadSound` | worker/src/webauthn.ts:127-144 | every head read was written in a width that holds it |
| `CborWire.Complete` | worker/src/webauthn.ts:123-192 | every supported item, however written, decodes to its value and its exact end, whatever follows |
| `CborWire.Sound` | worker/src/webauthn.ts:123-192 | whatever is accepted is a supported item standing there |
| `CborTrip.DecodeExact` | worker/src/webauthn.ts:117-192 | both directions in one |
| `CborTrip.DecodeAllExact` | worker/src/webauthn.ts:195-199 | a document is one supported item and not a byte after it |
| `CborTrip.RoundTrip` | worker/src/webauthn.ts:152-161 | decoding gives back what was written exactly when no text in it begins with U+FEFF |
| `CborTrip.MarkLost` | worker/src/webauthn.ts:156 | the text U+FEFF comes back empty |
| `CborTrip.MarkedKeysCollide` | worker/src/webauthn.ts:169-177 | two keys that differ by the mark are refused as one |
| `CborTrip.DecodedInRange` | worker/src/webauthn.ts:136-148 | every integer of a value lies from -2^53 to 2^53 - 1 |
| `CborTrip.LowestTaken` | worker/src/webauthn.ts:147-148 | and -2^53 is taken |
| `AuthData.ParseAuthenticatorData` | worker/src/webauthn.ts:213-245 | the parser with its cursor computes the function the layout is proved against, each refusal with its code |
| `AuthData.LaidParses` | worker/src/webauthn.ts:213-245 | every layout of the standard parses to what it says |
| `AuthData.ParsedLaid` | worker/src/webauthn.ts:213-245 | whatever parses is such a layout, byte for byte |
| `AuthData.ParseExact` | worker/src/webauthn.ts:212-245 | both directions in one, with no byte left over |
| `AuthData.RefusedExactly` | worker/src/webauthn.ts:213-245 | which code a refusal carries, if and only if |
| `Der.Integer` | worker/src/webauthn.ts:297-309 | the zeros dropped one by one and the octets set at the end of a buffer give the padded integer |
| `Der.DerToRaw` | worker/src/webauthn.ts:288-314 | the converter with its cursor computes the function below |
| `Der.PaddedNumber` | worker/src/webauthn.ts:304-308 | an integer is taken exactly when its number fits, and becomes that number in 32 octets |
| `Der.RawExact` | worker/src/webauthn.ts:288-314 | whatever is accepted is the two integers it denotes, padded, and every such writing is accepted |
| `Der.DerConverts` | worker/src/webauthn.ts:282-314 | the DER of any two numbers below 256^32 becomes those numbers in 32 octets each |
| `Der.RawKeeps` | worker/src/webauthn.ts:282-287 | and the raw form gives the numbers back |
| `Base64.Alphabet` | worker/src/webauthn.ts:74-90 | each digit is written as section 5 of RFC 4648 has it, and no other character is read |
| `Base64.FromTo` | worker/src/webauthn.ts:74-90 | every byte string comes back |
| `Base64.ToFrom` | worker/src/webauthn.ts:82-90 | an accepted string comes back exactly when no bit of its last character is dropped |
| `Base64.BitsDropped` | worker/src/webauthn.ts:85 | two strings give the same byte |
| `Sizing.RunValid` | worker/src/sizing.ts:79-104 | on every history the size is none or from 2 to the largest, and fewer than five lower peaks are counted |
| `Sizing.LowerCounts` | worker/src/sizing.ts:148-154 | the count is the length of a streak of builds that would each have fitted the size below |
| `Sizing.DecaysAfterFive` | worker/src/sizing.ts:90-154 | a size decays, by one, exactly at the fifth such build in a row at that size |
| `Sizing.OomRaises` | worker/src/sizing.ts:123-137 | a kill makes the size one past the one that ran out, as far as the cap, and never less than it was |
| `Sizing.Settles` | worker/src/sizing.ts:139-154 | with steady peaks and no kills the size rests within five builds a step, at the largest its builds need |
| `Sizing.RestNeeded` | worker/src/sizing.ts:104-113 | the size at rest is needed, and every larger one up to the start was not |
| `Sizing.CapKept` | worker/src/sizing.ts:115-121 | no history of kills under a cap takes a size past it |
| `Sizing.RequesterKept` | worker/src/sizing.ts:115-121 | a requester's builds alone keep a package at the community's size |

## Left out

- HTTP, SQL text and its indexes, JSON, R2 objects, cryptography, the journal's words and refusal sentences.
- The statements of one batch are one step, and so are a collection's reads, the reads a release makes before its number, those it makes after, and an old release's rebuild with the write of its rows.
- `ReleaseLog.Target`: the names, sources and architectures of packages are given as the sets of packages a request drops, keeps and adds.
- `ReleaseStore.Index.CollectGarbage`: with nothing in between its statements, as `ReleaseSerial.CollectAtOnce` says; the objects two rows share, with the other tables a package has, are not modelled.
- `ReleaseRuns.ProtectedReadable`: for runs in which a collection overlaps nothing; what overlapping ones do to a release's rows is `ReleaseRollbacks.RowsStand`, and how long a chain of deltas they leave is not bounded.
- `ReleaseRuns.RollbackExact`: for the same runs; with anything in between, `ReleaseSerial.RollbackOverlapped`.
- `ReleaseRollbacks.RollbackExactly`: while nobody else rebuilds the same release in between; a package's id is never given twice, so none of its packages is stored again.
- `ReleaseRollbacks.StepServes`: stored is a package's row; the object behind it goes just before the row (`worker/src/routes/gc.ts:115-123`) and is not modelled.
- `ReleaseServed.ServedStored`: an architecture has one database of a ring, where the source has one for each source of packages; the object and the rows of one put are one step; a release's list of sources is written with its batch. A head whose architecture had no render in 256 releases is outside it, as it is outside `carriedSince`.
- `Selecting.SelectFor`: the claim's own bounded reads of the queue (`worker/src/routes/factory.ts:1240-1378`), the fleet's rows as they become members, placement words, `mayRun` and pinning to a host are not modelled; `needs_native`, sizes, the signed constants, `behind` and `below_minimum` are inputs; ids and logins are numbers, and an owner of the empty string is none.
- `FleetRuns.RunWithin`: what a host declares is fixed over the run, and a claim's reads and its lease are one step. For units the statement that leases counts them again, so D1 serialises them; for agent slots, disk, the emulated share and the owner's cap that a claim is atomic is an assumption.
- `FleetRuns.RunShares`: that a claim's reads and its lease are one step is an assumption here too.
- `FleetRuns.RunOwners`: and here.
- `Marks.OneMark`: a registration and its host are one, and a task's lease clears its marks whatever the claim read.
- `Reservation.Delivers`: the rest of the fleet stands as it was, and the host's pool jobs stay within the unit kept for them.
- `Queue.PlaceBounds`: an owner's builds taken at another priority do not count in the order it is measured against, and a lane's wait, the per-owner cap and the emulated share do not move it.
- `LeaseSafety.NoWriteAfter`: the check of a token and the write it lets through are one act, where an upload checked before a fence can land after it; it speaks of a host's leases, whose tokens name a generation; a legacy token's pool-wide writes are accepted until it expires (`LeaseSafety.AcceptedExactly`).
- `LeaseSafety.OneWriter`: here too the check is the write.
- `LeaseSafety.EndsBySaying`: a maintainer's cancel, the worker's own row, an audit's independence, the orders a report carries out and what follows a requeue are not modelled.
- `Instance.RunNamed`: every claim's compare-and-set write is taken as applied; one lost to another process is not modelled.
- `RulesRuns.RunBounded`: the words that make an error's class, the probe's age, the breaker and the site's election are inputs, and the claims that write follow the clock: a claim's time is not before the last one's.
- `RulesRuns.Progress`: a proposal dropped by a cap, the breaker, the site's pacing or a lost race is not a claim the rules may help.
- `CapsRuns.RunCapped`: the rows of an order are never deleted within a day of its issue, and a worker's registration stays a host's or a legacy one.
- `Cbor.DecodeCbor`: a `Map` is its entries in the order they were read; a platform's limit on an array's length is not modelled.
- `Der.DerToRaw`: for the 32 octets of P-256, the only size the Worker asks for.
- `Sizing.RunValid`: the row as stored is read whole; a row no code wrote is not modelled, nor the compare-and-set that retries a report.
- The passkey ceremonies around the parsers, COSE key import and signature checks; the cost, audience, provenance, update and probe jobs; the agent and the crates; hosts, targets, scores and pages: mostly case analysis that would add easy members.
