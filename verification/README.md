# Anqa: a verified model of the off-chain engine

Anqa is a private perpetuals venue: a dark price-time book in a rollup, a resident market maker that
quotes it, an auto-matcher that serves waiting traders, keepers that crank, settle and liquidate, and a
browser terminal that funds accounts and shows positions. This project models the loops, protocols and
decoders that keep the venue going and proves what they keep over every run.

The on-chain programs appear as a small environment: a book that clients can cancel from, place into and
cross (`MatchingBook`), a deposit ledger with a claim high-water mark and permission and delegation flags
(`Onboarding`), the accrual clocks (`Burst`) and the mirror accounts (`Mirror`). Each transaction is all or
nothing. Money, lots, prices in ticks and clocks are integers; basis points, dollars and fractions are
reals; `Math.round` is the floor of x + 1/2.

Objects the sources update in place are classes (`MakerDaemon.SideState`, `MakerDaemon.Market`,
`AutoMatch.AutoMatcher`, `Custody.Venue`, `Burst.Venue`, `RiskChain.Keeper`, `Mirror.Layers`,
`Limiter.Gate`, `Login.Session`, `Tape.FillTape`, `BookArena.BookSide`); their methods are proved against functions or relations
on values, and the lemmas speak about those over every run or every interleaving. What the network, the
rollup or another process decides is an arbitrary value or a parameter.

| file | about |
|---|---|
| `Ladder`, `MakerDaemon`, `MakerRuns`, `MakerCap` | the market maker: desired ladder, diff and sends, the inventory cap over every run and how tight it is |
| `Orders`, `MatchingBook`, `BookArena`, `ExactCross`, `LateLanding`, `AutoMatch` | list walks, the book as queues and as the arena of linked slots that stores it, clear-then-cross with restoration however late it lands, the ageing timers |
| `Onboarding`, `Privacy`, `Custody`, `Mirror` | the set-up transaction, hiding before delegating, charging once, standing mirrors up |
| `Burst`, `RiskChain` | accrual catch-up and the serialized risk jobs |
| `Limiter`, `Login` | the request limiter and the single-flight login |
| `Codec`, `Kernel`, `FastReaders`, `Tape` | byte decoders, the two quick readers, the ring of prints |
| `Liquidation`, `MarginDialog`, `Ticket` | the liquidation price and the two forms that promise something about it |

## What turned out false, and when the code does meet it

- *A failed modify leaves the model untouched* (comment at `app/maker-daemon.ts:397-400`). The code deletes
  the rung from the model on every failure (413-419). And a send that fails may have taken effect: it polls for
  six seconds, gives up on a transaction that can still land (282-296), and is tried up to three times
  (302-312), so a placement can land unheard, or more than once. A level stays known through a cycle exactly
  when no modify or cancel of an order resting there was lost, and no placement or modify took effect unheard
  or placed twice; a placement that never takes effect does no harm (`MakerRuns.KnownIff`). With teardowns and
  attempts that land after their cycle this is the exact condition over whole runs
  (`MakerRuns.CycleTracksIff`, `MakerRuns.LateTracksIff`, `MakerRuns.TrackedOverRunsIff`).
- *The inventory cap holds.* It does over every run whose cycles meet that condition and whose late landings
  add no lots (`MakerRuns.InventoryCap`). A single cycle from a known book keeps it under less: nothing
  overlaid, heard or not (`MakerRuns.QuoteKeepsCap`). Otherwise the next cycle can lay a second order under the
  same client id (`MakerRuns.LostModifyDoubles`, `MakerRuns.UnheardPlacementDoubles`), and a ladder that fits
  the cap passes it two cycles after an unheard placement (`MakerRuns.UnheardPlacementBeatsTheCap`). The
  condition cannot be relaxed: from a flat book just as it was quoted, a cycle or late landing outside it always
  has an ordinary, harmless cycle after it that carries a ladder that fills the cap past it, and one inside it
  has none (`MakerCap.HarmlessIff`). A cycle
  whose teardown lands restores the cap unless it overlays a level itself, and restores the daemon's knowledge
  exactly when its own placements are heard and land once (`MakerRuns.TeardownHeals`).
- Tracking and cap are results about a maker key that nobody else trades with. The auto-matcher signs with the
  same key file (`app/devnet-auto-match.ts:176-183`), lays these very rungs again and can double them (next
  point); what it does to the book is outside these runs.
- *A match puts the venue's ladder back.* The restore sits in a `finally` and also runs after a transaction
  that did not take effect; it then lays cleared rungs a second time, as far as the side has room, and leaves
  the ladder as it was exactly when nothing had been cleared or the side was full
  (`ExactCross.FailedMatchDoublesTheLadder`). A transaction that was given up on may also land in the middle of
  the restore or after it: it still fills the target alone, but of the rungs already put back only those at
  the target's own price survive it, in whatever order the restoring placements themselves arrive. So the ladder
  is whole again exactly when every rung was accepted and those put back before the landing had room and rested
  at that price (`LateLanding.LadderAfterLanding`; for
  every way a match can end, `AutoMatch.LadderAfterMatch`).
- *The book may have moved since it was read.* On any book in priority order the match fills the target whole
  and alone exactly when the fill queue has room, each cancel finds an order of the maker's and the first
  order left that is not the maker's own is the target (`ExactCross.CrossesAnywhereIff`).
- *A match fills the target.* It does so exactly when the target is not the maker's own order; the book
  drops own orders without a fill (`ExactCross.CrossesExactly`).
- *Never charge twice.* The charge is measured against equity, so an unrealised loss is topped up
  (`Custody.LossIsTopUp`), and the guard needs the ledger read to answer: with it unanswered a deposit in
  flight counts as nothing and the account is charged again exactly when its equity falls short
  (`Custody.LedgerOutageChargesAgain`). And a deposit that was given up on may still land: the wallet is out by
  at most what was missing, a dollar, and whatever landed after a later call had been sized without it
  (`Custody.OutlayOverRuns`), so with the ledger answering the bound holds over every run without such a landing
  (`Custody.NoDoubleCharge`). Two clicks whose deposits are both given up on and both land charge twice, past
  the bound exactly when the charge and what was already pending exceed a dollar and the unrealised gains
  (`Custody.TwoClicksChargeTwice`). Amounts are rounded to atoms as the code rounds them.
- *A failed login never asks the wallet again within a minute.* The pause runs from one request's start to
  the next one's; between prompts it is shorter by the time the first challenge took, and the minute holds
  exactly when that challenge came back in no time (`Login.PromptsApartIff`).
- *The dialog offers what the program allows* (comment at `web/components/ManageMarginModal.tsx:79-80`). The
  program refuses one thing the dialog offers: taking out everything (`MarginDialog.DialogMirrorsProgram`).
- *The quick position readers agree with the wide one.* On a whole account they do exactly when the terminal
  shows nothing or at most 9 223 372 036 854 lots (`FastReaders.ReadersAgree`), which every basis inside 64
  bits keeps to and a few just outside do too (`FastReaders.FittingBasesAgree`); beyond it a position can even
  read as flat (`FastReaders.WideBasisHidden`).
- *Serializing the risk jobs keeps cranks away from a settle job's fills.* It orders what is sent
  (`RiskChain.NoCrankSentBetween`), but a pipelined crank may land after its job is over. No crank can land
  among the fills exactly when none is in flight as the job comes to them (`RiskChain.NoCrankLandsIff`), and
  runs in which one is exist: a finished job's (`RiskChain.StragglerReachable`), or one of the catch-up that
  runs before any job (`RiskChain.CatchUpStraggler`).
- *Never charge more than was missing.* When the portfolio cannot be read the account counts as empty; a call
  then stays within the bound exactly when there was at most a dollar to overlook or less than one asked for
  (`Custody.UnreadableBoundIff`).
- `portfolioIsPrivate` swallows its own read errors (`web/lib/actions.ts:755`), so the `.catch(() => true)`
  in `fundMarket` never runs and a failed read counts as "no permission record"; the privacy claim survives
  it, because the program then refuses a second record and the whole transaction with it
  (`Privacy.FailedReadAsks`).

## Model

| member | source | states |
|---|---|---|
| Ladder.DesiredLadder | app/maker-daemon.ts:330-354 | every level of a side exactly below its cap; the mid is the mark less the skew, each rung stands mark times step times level off the mid and at least a tick, its full size is the base decayed with the level and its lots the share of that the position leaves, each to the nearest unit and at least one |
| Ladder.LadderShape | app/maker-daemon.ts:341-352 | for any inventory every bid is below the mid and every ask above it; prices step away and lots shrink with the level when the decay is in (0, 1] |
| Ladder.LeansAgainstInventory | app/maker-daemon.ts:331-350 | the longer the position the lower the mid, the smaller the bids and the larger the asks; a flat book quotes around the mark at full size |
| Ladder.LevelRoundTrip | app/maker-daemon.ts:452-453 | the level filed under a client id comes back from it |
| Ladder.ScaledSum | app/maker-daemon.ts:335-350 | a side's scaled, rounded lots exceed its scaled budget by at most one lot a level |
| Ladder.ScaleOfExposure | app/maker-daemon.ts:331-338 | below the cap the share of a side still quoted, times the cap, is exactly the room left |
| Ladder.LadderBudget | app/maker-daemon.ts:330-354 | filling a freshly laid side completely cannot carry the inventory past the cap by more than one lot a level |
| MakerDaemon.Send | app/maker-daemon.ts:302-312 | up to three tries, each perhaps sent again after an expired session, any of which may take effect unheard: the orders under the client id are what the attempts that took effect made of them, and a send that came back took effect; the outcome is the one the tries come to for what the network does with each of them |
| MakerDaemon.Attempt | app/maker-daemon.ts:282-296 | one transaction: it takes effect or not, is seen to or not, and a modify or a cancel only on an order that is there; which of the two is what the network does |
| MakerDaemon.GetsThrough | app/maker-daemon.ts:302-312 | a send gets through in the first of its three tries that reaches the book and is seen to, if those before were lost in a way that is tried again; none is made after the third |
| MakerDaemon.AtMostSixLand | app/maker-daemon.ts:282-312 | an unheard placement can rest three times over, and six when every session had expired |
| MakerDaemon.SideState.ModifyRung | app/maker-daemon.ts:408-419 | one modify: the book follows the attempts that took effect, the model the send that came back; any failure forgets the rung |
| MakerDaemon.SideState.CancelRung | app/maker-daemon.ts:424-431 | one cancel: the rung leaves the model whether or not the send came back, the book only if an attempt took effect |
| MakerDaemon.SideState.ApplySide | app/maker-daemon.ts:403-433 | the mutating diff touches exactly the levels that drifted or are unwanted, each by its own step, and queues the missing ones |
| MakerDaemon.SideState.PlaceRung | app/maker-daemon.ts:446-455 | one placement: an order rests for each attempt that took effect, and it is filed, under the level read back from its client id, only if the send came back |
| MakerDaemon.SideState.PlaceAll | app/maker-daemon.ts:446-465 | the placing loop takes exactly one step for each missing level |
| MakerDaemon.Market.QuoteMarket | app/maker-daemon.ts:358-468 | a whole cycle: a re-lay happens exactly on the first cycle and once its interval is over; a cycle is skipped exactly when none is due, the mid is within its distance of the last and neither side is short; otherwise each side takes one step of every level towards the ladder of the mark and position it read, each send coming to what the network made of it |
| MakerDaemon.Market.CancelAll | app/maker-daemon.ts:389-396 | the teardown clears both models, and the book only if it landed |
| MakerDaemon.Market.LaySides | app/maker-daemon.ts:403-465 | the two diff passes and the placing loop together are one step of every level on both sides, each send coming to what the network made of it |
| MakerDaemon.Compose | app/maker-daemon.ts:403-465 | moves and placements touch different levels, so in sequence they are one step of each |
| MakerDaemon.MissingOnce | app/maker-daemon.ts:404-407 | the queue names each missing level once, in order |
| MakerRuns.NothingUnsent | app/maker-daemon.ts:408-455 | under any failures, a price or size new in the model came from a send that was heard to land, and is the desired one |
| MakerRuns.DiffSettles | app/maker-daemon.ts:403-465 | after a cycle whose sends are all heard to land the model equals the desired ladder level for level, and the same ladder again sends nothing |
| MakerRuns.KnownIff | app/maker-daemon.ts:282-455 | one level stays known exactly when no modify or cancel of an order resting there was lost, and no placement or modify took effect unheard or placed twice; unless lots were overlaid no more rests than is wanted |
| MakerRuns.StepTracks | app/maker-daemon.ts:386-465 | a side is tracked after a cycle exactly when the cycle was faithful on it; if nothing was overlaid at most the wanted lots rest at every level |
| MakerRuns.CycleTracksIff | app/maker-daemon.ts:358-468 | the daemon that knew what rested still does after a whole cycle exactly when it was faithful: a lost teardown found nothing, and no send let go of an order |
| MakerRuns.EventTracksIff | app/maker-daemon.ts:282-468 | through any one event, cycle, skip, fill, late attempt or late teardown, exactly when it was heard |
| MakerRuns.LateTracksIff | app/maker-daemon.ts:289-296 | through an attempt that lands after it was given up on, exactly when it cancels, or leaves a single order within what the model says |
| MakerRuns.ClearKeepsCap | app/maker-daemon.ts:386-396 | a teardown that lands late, on any part of either side, keeps cap and knowledge |
| MakerRuns.TrackedOverRunsIff | app/maker-daemon.ts:282-468 | over a whole run, started anywhere, it knows what rests at every point exactly when it did at the start and every event was heard |
| MakerRuns.QuoteKeepsCap | app/maker-daemon.ts:358-468 | a cycle that overlays nothing, heard or not, keeps position plus resting lots, on either side, within the cap plus one lot a level; a faithful one keeps knowledge too |
| MakerRuns.FillKeepsCap | app/maker-daemon.ts:330-354 | any partial or complete fill keeps it |
| MakerRuns.LateKeepsCap | app/maker-daemon.ts:289-296 | so does an attempt that lands late and adds no lots |
| MakerRuns.InventoryCap | app/maker-daemon.ts:282-468 | it is kept over every run of faithful cycles, skips, teardowns, fills and late landings that add no lots, in any order and any number |
| MakerRuns.TeardownHeals | app/maker-daemon.ts:386-396 | whatever the model lost track of, a cycle whose teardown lands restores the cap unless it overlays a level, and knowledge exactly when it was faithful |
| MakerRuns.LostModifyDoubles | app/maker-daemon.ts:397-419 | what losing sight leads to: a lost modify, then a placement, leave two orders resting under one client id (the exact condition is CycleTracksIff) |
| MakerRuns.UnheardPlacementDoubles | app/maker-daemon.ts:289-296 | the same through a placement that lands without being confirmed, then the next cycle's |
| MakerRuns.UnheardPlacementBeatsTheCap | app/maker-daemon.ts:446-461 | and it is past the cap then: a run of two cycles of a ladder that fits the cap, within it after the first and past it after the second |
| MakerCap.SideExcess | app/maker-daemon.ts:358-468 | on a side just as it was quoted, a cycle leaves more resting than the model says exactly when it was not faithful there |
| MakerCap.OrdinaryLays | app/maker-daemon.ts:403-465 | the next cycle of the same flat ladder, its sends heard and landing once, leaves exactly the ladder and what was left over |
| MakerCap.AnOrdinaryCycle | app/maker-daemon.ts:403-465 | there always is such a cycle, and it is harmless |
| MakerCap.CycleOverCapIff | app/maker-daemon.ts:330-468 | for a ladder that fills the cap, after any cycle and then an ordinary one the book is past the cap exactly when the first was not faithful |
| MakerCap.LateOverCapIff | app/maker-daemon.ts:289-296 | the same of an attempt that lands late: exactly when it adds lots |
| MakerCap.HarmlessIff | app/maker-daemon.ts:282-468 | so what the cap asks of a cycle or a late landing is the least it can ask: outside it there is a harmless continuation past the cap |
| MakerRuns.DefaultsFitTheCap | app/maker-daemon.ts:61-76 | the process defaults lay 8 304 lots a side, inside the cap of 20 000 |
| Ladder.DefaultsQuote | app/maker-daemon.ts:61-76 | at a mark of 100 000 ticks the defaults bid three basis points apart, from 2 000 lots; halfway to the cap five basis points lower and half of it |
| MakerRuns.RelaysApart | app/maker-daemon.ts:375-395 | over every run of cycles at most a gap apart, successive re-lays are more than the interval and at most the interval and a gap apart |
| Orders.Walk | app/devnet-auto-match.ts:75-93 | the visited-set loop ends on every arena and returns the active orders of the slots it visits |
| Orders.WalkFollowsLinks | app/devnet-auto-match.ts:75-93 | on any arena, cycles and wild links included, the visited slots follow the links, and end only where links stop or close on themselves |
| Orders.Visits | app/devnet-auto-match.ts:75-93 | no slot is visited twice and none lies outside the arena |
| Orders.WalkSide | web/lib/anqa.ts:174-187 | the step-guarded loop returns the active orders of the first slots along the links |
| Orders.ReadersAgree | web/lib/anqa.ts:174-187 | on an acyclic list the two readers return its live orders in link order, the guarded one exactly when nothing live lies past its last step (the terminal allows sixty-four) |
| Orders.ListDistinct | app/devnet-auto-match.ts:75-93 | a list that runs to a stop never meets a slot twice |
| BookArena.BookSide.Insert | programs/anqa-core/src/state/book.rs:246-287 | inserting into the arena is the queue's insertion, and is refused exactly when no slot is free |
| BookArena.BookSide.PopHead | programs/anqa-core/src/state/book.rs:289-297 | popping the head is the queue's tail |
| BookArena.BookSide.Cancel | programs/anqa-core/src/state/book.rs:303-335 | cancelling is the queue's removal: the first order with the client id, if it is the caller's |
| BookArena.ThreadIn | programs/anqa-core/src/state/book.rs:217-287 | a slot threaded in leaves two disjoint lists that share the arena out, and the order at its place in the queue |
| BookArena.ThreadOut | programs/anqa-core/src/state/book.rs:224-335 | so does a slot threaded out, and only its order leaves the queue |
| BookArena.WalkReadsQueue | app/devnet-auto-match.ts:75-93 | whoever walks the account reads the queue; the guarded reader exactly when its steps suffice |
| MatchingBook.InsertSorted | programs/anqa-core/src/state/book.rs:208-287 | a newcomer takes the back of its price level and strict priority order is kept |
| MatchingBook.PostOnlyRests | programs/anqa-core/src/state/book.rs:694-799 | a post-only order that fits and does not cross rests alone and leaves a well-formed, uncrossed book |
| MatchingBook.PlaceRefusedIff | programs/anqa-core/src/state/book.rs:694-799 | a placement is refused exactly when it asks for nothing, is post-only and would trade or finds its side full, or trades more often than the fill queue has room for |
| MatchingBook.CrossConserves | programs/anqa-core/src/state/book.rs:722-770 | matching conserves lots: what is filled has left the taker and the resting orders of others, at prices the limit reaches, within the budget of fills |
| MatchingBook.NoSelfFill | programs/anqa-core/src/state/book.rs:722-770 | nobody is filled against their own order |
| ExactCross.CancelsPeel | app/devnet-auto-match.ts:301-320 | cancelling the orders ahead in queue order removes exactly them, even with equal client ids |
| ExactCross.CrossesExactly | app/devnet-auto-match.ts:287-341 | the transaction fills the whole target at its own price and fills nobody else, exactly when the target is not the maker's own |
| ExactCross.CancelsRemove | app/devnet-auto-match.ts:301-320 | on any book the cancels take, one after another, the first order with each client id, and all is refused if one of those is missing or not the maker's |
| ExactCross.CrossAloneIff | app/devnet-auto-match.ts:320-341 | the crossing order fills just the target exactly when the first order not the maker's own is the target |
| ExactCross.CrossesAnywhereIff | app/devnet-auto-match.ts:287-341 | on any book in priority order, moved or not since it was read: exactly when the transaction lands and fills the target whole and nobody else |
| ExactCross.RestorePutsBack | app/devnet-auto-match.ts:211-248 | every restored order the engine accepts and the side has room for rests on its own terms without crossing; the other side is untouched |
| ExactCross.MatchRestoresTheLadder | app/devnet-auto-match.ts:250-388 | after a landed match and an accepted restore the side is, as a multiset of terms, what it was less the target |
| ExactCross.FailedMatchDoublesTheLadder | app/devnet-auto-match.ts:376-388 | after a match that took no effect the restore doubles as many cleared rungs as fit, and leaves the ladder as it was exactly when nothing was cleared or the side was full |
| LateLanding.RestoreAround | app/devnet-auto-match.ts:211-248 | rungs put back with the target still there: better prices come before it, its own price behind it, and every client id to be cancelled stays before it |
| LateLanding.LandsThrough | app/devnet-auto-match.ts:301-341 | with copies on the book the cancels still find a rung each, self-trade prevention drops the rest before the target, and the target is filled alone |
| LateLanding.SameTerms | app/devnet-auto-match.ts:211-248 | rungs put back in another order have the same terms as a whole |
| LateLanding.LadderAfterLanding | app/devnet-auto-match.ts:341-388 | wherever in the restore the transaction lands, and in whatever order the rungs get back: what rested behind the target, the copies at its price and what is put back later remain; only the target is gone exactly when nothing was lost |
| AutoMatch.AutoMatcher.ScanSide | app/devnet-auto-match.ts:404-422 | one side: the non-venue orders in queue order, each noted once |
| AutoMatch.AutoMatcher.ScanBook | app/devnet-auto-match.ts:396-432 | one book: unreadable books and books with fills pending are passed over |
| AutoMatch.AutoMatcher.Forget | app/devnet-auto-match.ts:434-440 | vanished identities lose both timers |
| AutoMatch.AutoMatcher.Observe | app/devnet-auto-match.ts:390-451 | a scan sees exactly the user orders of the readable books; its pick is the first user order of some side, with only venue orders before it, is due, and no due first user order of any side arrived earlier; no pick means none is due |
| AutoMatch.AutoMatcher.Oldest | app/devnet-auto-match.ts:426-451 | the pick is mature and no mature head arrived earlier; no pick means none is mature |
| AutoMatch.AutoMatcher.Match | app/devnet-auto-match.ts:250-388 | every exit of a match, unread, unbuilt, not landed, landed unseen after any of the rungs are back, in any order, and confirmed: what happens to the book, the fills and the timers |
| AutoMatch.AutoMatcher.IndexOf | app/devnet-auto-match.ts:261-262 | the first order with the target's identity |
| AutoMatch.AutoMatcher.PutBack | app/devnet-auto-match.ts:211-248 | the restore loop carries on past refusals |
| AutoMatch.AutoMatcher.ScanAndMatch | app/devnet-auto-match.ts:390-452 | whoever is served is such a pick and was seen in every scan over at least the ten seconds before |
| AutoMatch.ScanKeepsAges | app/devnet-auto-match.ts:404-440 | after a scan timers stand exactly for the identities just seen, each since it was first seen without a gap |
| AutoMatch.MatureWasWatched | app/devnet-auto-match.ts:426-431 | a mature identity has been watched over the whole delay |
| AutoMatch.AgeingOverRuns | app/devnet-auto-match.ts:95-452 | over every run: timers mean unbroken sightings, and back-offs nest in first sightings nest in the last scan |
| AutoMatch.ServedExactly | app/devnet-auto-match.ts:250-388 | a found target of another trader is filled whole and alone, and the restored ladder stands as it stood |
| AutoMatch.FirstUserIsClear | app/devnet-auto-match.ts:261-285 | with the maker the only venue key, a match of a side's first user order finds it and is never blocked |
| AutoMatch.PickIsServed | app/devnet-auto-match.ts:250-388 | so the pick, matched on the book as scanned, is filled whole and alone if its transaction is confirmed, and otherwise put off for two seconds |
| AutoMatch.LadderAfterMatch | app/devnet-auto-match.ts:250-388 | the venue's ladder after every fate of a match, every verdict on the rungs and every order in which they get back: if it took effect, however late, the target was filled alone and the ladder is whole again exactly when nothing was lost; if not, the rungs put back are there twice as far as there is room |
| Onboarding.SetupMarket | web/lib/actions.ts:144-267 | builds the list whose order SetupHidesFirst speaks of |
| Onboarding.SetupEffect | web/lib/actions.ts:144-267 | exactly when the set-up transaction lands, and everything it then changes |
| Onboarding.SetupHidesFirst | web/lib/actions.ts:204-253 | inside it the permission is created on an account that is not delegated at that instruction, and delegation runs on a hidden one; exactly when either fails |
| Onboarding.SwappedHidesLast | web/lib/actions.ts:204-217 | with the two instructions swapped it lands just the same and leaves the same account, and creates the permission on a delegated account exactly when it hides and delegates |
| Privacy.CallEvolves | web/lib/margin.ts:154-208 | whatever one step of one call runs, no instruction permissions a delegated account nor delegates an unhidden one |
| Privacy.StepEvolves | web/lib/margin.ts:385-395 | the same for one step of the world, with stale flags, failed reads, and sends that failed and land later |
| Privacy.FailedReadAsks | web/lib/margin.ts:379-380 | after a permission read that failed on a hidden account the call asks for a second record, and its whole transaction is refused |
| Privacy.FailedSendFlies | web/lib/margin.ts:385-395 | whichever of its transactions a call was told had failed may still land later |
| Privacy.StaysEntitled | web/lib/margin.ts:154-208 | what a call was entitled to believe when it sent is still true however late its transaction lands |
| Privacy.NeverPermissionedAfterDelegation | web/lib/margin.ts:154-208 | in every interleaving of set-ups, migrations, claims, returns and transactions that land after their call was told they failed, every permission ever created was created, at that very instruction, on an account not delegated, and every delegation ran on a hidden one |
| Privacy.DelegatedMeansHidden | web/lib/actions.ts:204-253 | from an account that is not a legacy one, delegated always implies permissioned |
| Privacy.OrderMatters | web/lib/actions.ts:204-253 | a call's set-up satisfies what the interleavings keep, and swapped it lands alike and violates that exactly when it hides and delegates |
| Custody.Venue.FundMarket | web/lib/margin.ts:295-417 | undisturbed: answers at once if nothing is missing, waits if more than a dollar is on its way, and otherwise sends the one transaction, which lands exactly if it can and takes the shortfall to the nearest atom; ready after a deposit only with the money there, lagging only without it; disturbed, what it may do to the money and leave in flight |
| Custody.Venue.Send | web/lib/margin.ts:385-395 | the one transaction lands exactly when the wallet signs and nothing it makes exists, and then makes what was asked and takes the shortfall if it is more than a dollar |
| Custody.Venue.PollCredit | web/lib/margin.ts:399-416 | waiting moves no money, ends ready exactly with the money there, and takes up to ten waits, not one past the first after which it is |
| Custody.Venue.AwaitCredit | web/lib/margin.ts:346-371 | a click during a deposit in flight only waits, up to eight times and not once while a dollar or less is pending, and gives up exactly while more still is |
| Custody.ClaimDeposits | app/keeper.ts:859-908 | the keeper's pass claims for exactly the opened, readable accounts with something pending, and credits just that |
| Custody.Covered | web/lib/margin.ts:373-395 | claims landing between check and send only shrink what was pending |
| Custody.OutlayOverRuns | web/lib/margin.ts:295-417 | over any number of retries, claims and late landings the wallet is out by at most what was missing at the first click, one dollar, and what landed after a later call was sized without it |
| Custody.NoDoubleCharge | web/lib/margin.ts:295-417 | without such a landing, by at most what was missing and one dollar; what was credited never exceeds deposits |
| Custody.TwoClicksChargeTwice | web/lib/actions.ts:144-267 | with one, a run of two clicks that charges twice, past the bound exactly when the charge and what was pending exceed a dollar and the gains |
| Custody.GivenUp | web/lib/margin.ts:385-395 | the transaction a call leaves in flight carries a deposit within what the call may take |
| Custody.FloorWithoutLosses | web/lib/margin.ts:89-117 | without losses what was missing is the amount less capital and deposits in flight, and only then |
| Custody.LossIsTopUp | web/lib/margin.ts:346-395 | what an undisturbed call charges a readable account, exactly: nothing, or the amount less equity, every dollar of loss included |
| Custody.UnreadableBoundIff | web/lib/margin.ts:67-76 | a call that cannot read the portfolio stays within the bound exactly when there was at most a dollar to overlook or less than one asked for |
| Custody.LedgerOutageChargesAgain | web/lib/margin.ts:94-101 | with a deposit in flight, a charge happens exactly when the ledger read fails and equity falls short |
| Custody.ClaimConserves | programs/anqa-core/src/instructions/claim_deposit.rs:92-126 | a claim empties what is pending, conserves the total and is idempotent |
| Mirror.Layers.Prepare | app/keeper.ts:657-684 | account and permission, each only where missing, with other runs moving on in between |
| Mirror.Layers.ProvisionMirror | app/keeper.ts:657-719 | any run moves the marks forward in order and at most once each; a faultless undisturbed run completes; one that does not see the account delegates nothing, and a send that came back as failed ends the run |
| Mirror.Layers.Retry | app/keeper.ts:657-719 | after any number of faulty runs one faultless run completes all four steps |
| Mirror.StepIsForward | app/keeper.ts:657-719 | every single step of any run moves the marks forward in order |
| Mirror.ManyRunsGoForward | app/keeper.ts:657-719 | any number of runs interleaved at every await, with crashes, lost sends and empty reads: each step takes effect at most once, in order, and what is delegated is permissioned |
| Mirror.GuardsAloneDoNotOrder | app/keeper.ts:668-684 | the programs alone would allow delegating first; the order is the keeper's |
| Burst.CranksExactly | app/keeper.ts:278-312 | n landed cranks leave a lag of exactly max(0, lag + ticks - 100n), and every neighbour's lag grows by the ticks |
| Burst.AnyLandings | app/keeper.ts:278-352 | cranks of any markets landing in any order: a lag falls by at most a hundred for each of its own and grows by exactly the ticks while none lands |
| Burst.BurstCuts | app/keeper.ts:375-377 | on a calm host one burst clears the lag or cuts it by at least 23 040 |
| Burst.Venue.CrankBurst | app/keeper.ts:313-352 | any part of a burst may land, all of it on a calm host |
| Burst.Venue.CrankUntilCurrent | app/keeper.ts:357-384 | each round cuts 23 040 on a calm host, so three clear any lag up to the deep-debt line; on any other, late landings included, only landings move the clocks; deep markets get one crank unless this is the walk-off, and a stale price refuses it |
| Burst.Venue.WalkOff | app/keeper.ts:390-422 | the deepest market not backing off gets the job, none means none is deep, and a refused crank puts its market off for a minute |
| Burst.WalkOffGains | app/keeper.ts:387-422 | on up to nine markets each job lowers the venue's total lag by at least 4 320 although it pushes every neighbour back |
| Burst.WalkOffEnds | app/keeper.ts:387-422 | whatever happens between jobs, each job's 4 320 slots come out of the lag there was and the lag added meanwhile |
| RiskChain.Keeper.RiskJob | app/keeper.ts:211-219 | a job hangs on the tail and becomes the tail |
| RiskChain.Keeper.RunNext | app/keeper.ts:213 | a job starts once the one before has settled, either way |
| RiskChain.JobsRunInOrder | app/keeper.ts:211-219 | in every run jobs run one at a time in submission order |
| RiskChain.Keeper.Settle | app/keeper.ts:430-487 | a settle job's body sends its cranks first and then exactly as many fills as reads of the book showed some left, at most four, each awaited; it ends well exactly when it came through them; and it is a run of the chain |
| RiskChain.Keeper.Fills | app/keeper.ts:443-470 | the fills, one for each read that shows some left; it fails only by a read or a fill that did not come back |
| RiskChain.Keeper.CrankUntilCurrent | app/keeper.ts:358-384 | a confirmed crank, then a burst sized to the lag for each read that shows one, twelve at most and none on a deep debt; it goes on exactly when the first was seen to land |
| RiskChain.NoCrankSentBetween | app/keeper.ts:430-487 | of sends: nothing of another job, nor of the catch-up, falls between a settle job's cranks and its fills, and after its first fill it sends no crank |
| RiskChain.NoCrankLandsIff | app/keeper.ts:304-384 | of landings: no crank can land among a settle job's fills exactly when none is in flight as it comes to them, and nothing but its fills exactly when nothing else is |
| RiskChain.StragglerReachable | app/keeper.ts:304-352 | a run in which a finished job's crank is still in flight then, and can land |
| RiskChain.CatchUpStraggler | app/keeper.ts:919-939 | a run in which a crank of the start-up catch-up is still in flight as the first job comes to its fills, and can land |
| RiskChain.Keeper.CatchUpAll | app/keeper.ts:919-939 | before the first job: each market that lags, but not by more than 2 000 000 slots, gets a confirmed crank and then bursts for up to two hundred rounds, none on a deep debt; the cranks are sent and let go while some land |
| RiskChain.NeverBlocked | app/keeper.ts:213-217 | a rejected job never blocks: the first unsettled job runs or may start, and no other may |
| Limiter.BackoffBounded | app/rpc.ts:58-63 | a wait is positive and under sixteen seconds, at most fifteen when the server names it (section 10.2.3 of RFC 9110) |
| Limiter.RetryingFetch | app/rpc.ts:65-88 | the first reply that is neither thrown, 429 nor 5xx, or the last permitted one; after each of those it waits the seconds the server named, up to fifteen, or half a second doubled up to eight and at most as much again |
| Limiter.Gate.Acquire | app/rpc.ts:38-44 | in at once while there is room, else to the back of the queue |
| Limiter.Gate.Release | app/rpc.ts:46-50 | the slot passes to the longest waiter or is freed |
| Limiter.AcquireKeeps | app/rpc.ts:38-44 | arriving keeps the slots exactly counted and the queue in order |
| Limiter.ReleaseKeeps | app/rpc.ts:46-50 | so does leaving, also when the slot is handed over |
| Limiter.EveryInterleaving | app/rpc.ts:35-88 | in every interleaving holders equal the counter and stay within the ceiling, nobody queues while a slot is free, and every request is where its phase says |
| Limiter.OthersStay | app/rpc.ts:35-88 | an event moves only its own request and the one it lets in |
| Limiter.FirstComeFirstServed | app/rpc.ts:35-50 | whoever came before a caller that was let in was let in, and earlier |
| Limiter.OneSlotEach | app/rpc.ts:65-88 | a finished request took one slot and gave one back |
| Login.Session.TeeToken | web/lib/teeSession.ts:72-97 | the uninterrupted part of a call: a stored token still good for a minute, no wallet, a request under way, one begun within the minute, or a new request, in that order |
| Login.Session.Remember | web/lib/teeSession.ts:106-110 | a token is stored if readable and the pause is lifted |
| Login.Session.Settle | web/lib/teeSession.ts:113-118 | the call that made a request takes its key out of pending |
| Login.InvOverRuns | web/lib/teeSession.ts:30-118 | in every interleaving requests under a key are owned, timed and spaced as the maps say |
| Login.SingleFlight | web/lib/teeSession.ts:30-118 | at most one request runs per endpoint and owner, its callers hear one outcome, and pending is what runs |
| Login.RequestsSpaced | web/lib/teeSession.ts:34-37 | two requests under a minute apart have a successful one from the first up to the second |
| Login.PromptGap | web/lib/teeSession.ts:91-100 | between any two prompts without a login from the first on lie a minute less the first challenge's delay |
| Login.PromptsApartIff | web/lib/teeSession.ts:91-100 | prompts are always a minute apart exactly when the first challenge takes no time |
| Login.SlowChallenge | web/lib/teeSession.ts:96-118 | for every delay a run whose prompts are exactly that much closer |
| Codec.ReadU | web/lib/portfolio.ts:73-77 | the accumulator loop computes the little-endian value, absent bytes as zero |
| Codec.ReadI | web/lib/portfolio.ts:79-83 | and the signed reader its two's complement |
| Codec.UnsignedRoundTrip | web/lib/portfolio.ts:73-77 | at every width a field reads as v exactly when it holds the encoding of v |
| Codec.SignedRoundTrip | web/lib/portfolio.ts:79-83 | the same for two's complement |
| Codec.NarrowRead | app/keeper.ts:516 | reading only the low bytes of a signed field gives its value exactly when the value fits in them |
| Codec.FieldsSurvive | web/lib/portfolio.ts:56-68 | fields that do not overlap can all be read back |
| Kernel.ReadKernel | web/lib/portfolio.ts:106-131 | the decoding loop: active legs with a basis, in order, up to the first that is cut off |
| Kernel.LayoutApart | web/lib/portfolio.ts:56-68 | no two fields of the layout share a byte |
| Kernel.KernelRoundTrip | web/lib/portfolio.ts:56-131 | every field of a state written into an account is recovered |
| FastReaders.ReadPosition | app/keeper.ts:511-524 | the keeper's loop, throws included |
| FastReaders.ReadSigned | app/maker-daemon.ts:315-327 | the maker's loop is the same scan with a sign |
| FastReaders.ReadersAgree | app/keeper.ts:493-524 | on a whole account the keeper and the maker answer what the terminal shows exactly when that is nothing or at most 9 223 372 036 854 lots, and never throw |
| FastReaders.FittingBasesAgree | app/keeper.ts:493-524 | with every active basis inside 64 bits they always agree |
| FastReaders.QuickLots | app/keeper.ts:516-521 | a quick read names the same whole lots as the wide one as long as those are within its reach |
| FastReaders.WideBasisHidden | app/maker-daemon.ts:315-327 | a lone position whose basis is a multiple of 2^64 is open on the terminal and flat to them |
| Tape.FillTape.Record | programs/anqa-core/src/state/tape.rs:48-59 | prints land at the count modulo the capacity with increasing numbers |
| Tape.FillTape.ReadTape | web/lib/anqa.ts:189-210 | for every history the reader returns exactly the last min(count, capacity) prints, newest first, strictly descending |
| Tape.RingHolds | web/lib/anqa.ts:196-199 | each of the last prints is still in its slot |
| Tape.RingForgets | programs/anqa-core/src/state/tape.rs:48-59 | a slot is blank or holds the print that belongs there and is not lapped |
| Liquidation.Threshold | web/lib/useAllPositions.ts:110-122 | the closed-form price is the exact threshold of the maintenance test |
| Liquidation.UnitsDoNotMatter | web/lib/useAllPositions.ts:91-122 | in dollars per asset or atoms per lot the test comes out the same |
| Liquidation.RowIsThreshold | app/keeper.ts:775-785 | the keeper does not skip a position exactly when the mark has reached the price its row shows |
| Liquidation.NoPriceNoTrigger | web/lib/useAllPositions.ts:117-122 | a row shows no price exactly when no positive mark sets the keeper off; only a long can |
| Liquidation.SamePriceInLots | web/lib/useAllPositions.ts:101-122 | the price behind the dollars does not depend on the size of a lot |
| Liquidation.KeeperMirrorsProgram | programs/anqa-core/src/instructions/close_position.rs:136-157 | the keeper calls whenever the program would accept, and only then unless the program's arithmetic saturates |
| Liquidation.BuildRow | web/lib/useAllPositions.ts:96-142 | the row pushed tells what the keeper will do: a price on it is where the keeper's test turns, no price means no positive mark turns it, and its profit is the keeper's in dollars |
| Liquidation.RowMeans | web/lib/useAllPositions.ts:96-142 | the same of every row the loop builds |
| Liquidation.BuildRows | web/lib/useAllPositions.ts:91-142 | one row for each market with a position, in market order |
| Liquidation.SweepIsWhatRowsShow | app/keeper.ts:768-785 | at any positive mark the sweep calls on exactly the holders whose own row shows a price the mark has reached |
| MarginDialog.RemovableIffCovered | web/components/ManageMarginModal.tsx:81-84 | the cap is exactly what can leave with the remainder not negative and initial margin covered |
| MarginDialog.BeyondIffMargin | web/components/ManageMarginModal.tsx:87-93 | the projected price lies strictly beyond the mark exactly when maintenance is exceeded |
| MarginDialog.RemovalStaysSafe | web/components/ManageMarginModal.tsx:73-93 | any removal up to the cap keeps initial margin and a projected price strictly beyond the mark, or none when everything leaves |
| MarginDialog.ToleranceIsHarmless | web/components/ManageMarginModal.tsx:99 | what the button's tolerance lets through stays beyond the mark on any position worth more than forty times it |
| MarginDialog.AddingMovesAway | web/components/ManageMarginModal.tsx:87-93 | adding collateral moves the price strictly away |
| MarginDialog.DialogMirrorsProgram | programs/anqa-core/src/instructions/manage_collateral.rs:158-196 | of what the dialog allows the program refuses only taking everything, and the dialog is at most an atom stricter |
| MarginDialog.ProgramNeedsSome | programs/anqa-core/src/instructions/manage_collateral.rs:158-196 | the program never takes nothing out, and never everything |
| Ticket.ClampLev | web/components/TradeForm.tsx:671-676 | typed leverage is held to the slider's range and left alone inside it |
| Ticket.MostLots | web/components/TradeForm.tsx:113-119 | the lots are the most that pay times leverage covers |
| Ticket.PreviewedIff | web/components/TradeForm.tsx:113-131 | without a price there are no lots, and a price is previewed exactly for a paid ticket of some size |
| Ticket.LosingSideIff | web/components/TradeForm.tsx:124-131 | the previewed price is on the losing side exactly when the pay exceeds maintenance on the notional |
| Ticket.TicketIsSafe | web/components/TradeForm.tsx:111-130 | at any leverage the slider allows a ticket stays within pay times leverage, less than a lot short, and previews a losing-side price |
| Ticket.PreviewIsWhatTheRowShows | web/lib/useAllPositions.ts:110-122 | filled at its price, the row shows the previewed number exactly when it is a short or the pay is below the notional |

## Left out

- Floating point: dollars, basis points and prices are reals, so rounding errors of doubles are not captured; `Math.round` and `Math.floor` are exact.
- Real time: clocks are integers passed in, sleeps are steps of the environment.
- Solana and Anchor plumbing: addresses, account lists, blockhashes, signing, price pushing, child processes.
- The risk kernel's own arithmetic, funding and fees; the engine's verdict on a placement or a claim is arbitrary.
- `app/maker-daemon.ts`: quoting as if flat after a failed portfolio read is in `QuoteMarket` but outside the cap claim; so are fills inside a cycle and position moves by the auto-matcher that shares the maker's portfolio. An attempt that lands late does so in its own level's step or between cycles. Its base-layer `CAPITAL_OFF` reader is left out.
- `app/devnet-auto-match.ts`: the delay is its default of ten seconds.
- `app/devnet-auto-match.ts`: sequence numbers that repeat across books are resolved by the first in scan order.
- AutoMatch.LadderAfterMatch: the ladder is what it is once every placement that will land has; nobody else moves the book between the fetch and the end of the restore; when somebody does, `CrossesAnywhereIff` says what the transaction fills, not what the ladder is then.
- MakerCap.HarmlessIff: speaks of a flat maker whose book is just as it was quoted; elsewhere a fill or a scaled ladder may leave room that hides what was left over.
- BookArena.BookSide.PopHead: the matching loop's partial fill, which rewrites a size in place, and evictions are modelled on queues only.
- Custody.NoDoubleCharge: assumes the ledger read answers in every call, that the portfolio read does wherever trading has put capital above what was credited, and that profit and loss does not move during the run; equity is capital plus profit and loss, without the kernel's health certificate.
- Custody.OutlayOverRuns: a deposit in flight that lands while a later call is between its reads counts as landing before or after that call; only a transaction that would land as things stand is ever in flight, since the wallet's provider simulates it first.
- Custody.Venue.FundMarket: every read within one call sees the portfolio or none does; a missing rollup client, which reads stale base-layer state, is left out.
- Privacy.NeverPermissionedAfterDelegation: `delegateAndGrant` and `ensurePortfolioPrivate` are not part of it, and the rollup-side permission read is taken to show what base layer holds.
- Burst.BurstCuts: the bound needs a calm host, one on which the sent cranks land and the clock ticks at most ten slots a crank; a failed lag read counts as no lag, as in the code.
- RiskChain.NoCrankLandsIff: sweeps and liquidations run outside the chain and outside the claim.
- Mirror.ManyRunsGoForward: other runs are runs of the same program; a hand-written transaction could break the order.
- Limiter.RetryingFetch: the method shows one request's attempts; holding the slot across them is in `EveryInterleaving`. A Retry-After that is a date is not a number and falls back to the curve. The HTTP confirmation helper is left out.
- Login.Session.TeeToken: the token's parsing is an expiry that is there or not; the storage may be erased by anyone at any time.
- Kernel.KernelRoundTrip: the other bytes of the kernel's account are arbitrary; `equity`, `freeMargin` and the open-interest reader would only add easy members.
- Liquidation.KeeperMirrorsProgram: profit and loss is unbounded where the program's is 128-bit; only the saturating requirement is captured.
- Liquidation.BuildRows: works on decoded accounts; a failed refresh keeps the previous rows.
- Liquidation.SweepIsWhatRowsShow: at a mark of exactly zero a long without a price can still set the keeper off.
- MarginDialog.ToleranceIsHarmless: speaks of dialogs that offer something to remove; where they offer nothing, the tolerance lets through at most itself and the program decides.
- MarginDialog.DialogMirrorsProgram: reads the entry and collateral as the chain holds them; refreshes that lag are left out.
- Diagnostics, provisioning and one-shot scripts, React rendering and charts, `closeAndSweep` and `defundMarket`, whose deciding steps are on chain.
