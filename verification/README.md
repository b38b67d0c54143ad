# RustEmu-Core: verified models of five state machines

Five parts of the game server and its tools, modelled in Dafny and proved correct over all their
inputs and runs.  `dafny verify dfyconfig.toml` checks the whole project.

**Achievements** (`Achievement*.dfy`).  One player's achievement manager: counters raised by events
complete achievements, completed achievements feed meta and points criteria, and these complete more
achievements through re-entrant calls.  `AchievementEngine` writes the calls as mutually recursive
functions whose measure is the number of open achievements; `AchievementMgr` is the manager itself,
its maps as fields, every method tied to the function of the same name.  `AchievementFixpoint`,
`AchievementCascade` and `AchievementLowering` state what one call keeps, achievement by achievement,
so that it survives the pending work of the callers; `AchievementRuns` lifts this to whole runs with
saves, timers, resets and restarts; `AchievementReach` says which achievements a call cannot touch.
`AchievementCompletion` and `AchievementUpdates` say without loops and nested calls what completes an
achievement and what an update writes, `AchievementCause` why a meta criterion counts, and
`AchievementTables` what comes back from the tables.

**Condition compiler** (`Condition*.dfy`).  The script that turns the inline conditions of loot and
gossip tables into ids of one shared table of atoms and binary AND nodes.  The table is hash-consed:
the proofs show that an id means exactly the conditions of its row, that equal rows share an id, and
that nothing else is in the table.

**Auction house** (`Auction*.dfy`, `MapSum.dfy`).  Money and items in escrow over runs of sales, bids,
bot bids, cancellations and updates of three houses: what every bidder and every owner has paid and got
for each listing, and where its item is (`AuctionEscrow`, `AuctionLedger`, `AuctionSettlement`,
`AuctionDelivery`, `AuctionPrices`); what each bid, sale, cancellation and update does, clause by clause
(`AuctionDeals`, `AuctionTicks`); the multi-column comparator; the paged search.

**Calendar** (`Calendar*.dfy`).  The startup clean-up that renumbers events and invites by renames one
at a time, and the write-behind protocol between two stores and two tables; `CalendarRequests` follows
each request to the rows it leaves in the tables.

**Cells and map files** (`CellVisit.dfy`, `Map*.dfy`).  The octagon of grid cells around a point with
its unsigned countdown, and the map file: packing of heights, layout, and the server's reader, which
gives back what the extractor wrote.

In each part a pure specification says what a step does, classes and loops refine it, and lemmas
about the specification state what the part is for.

## What the proofs found

- A plain counter does not report its criteria.  An achievement that borrows them and has no criterion
  of its own is never held, however complete (`BorrowerNeverHeld`, `PlainCounterHidesCompletion`); with
  criteria of its own it is looked at only when one of these changes (`BorrowerExact`).  The fixpoint
  theorems exclude such stores.
- The uint32 sum of a SUMM achievement can wrap and make it incomplete again (`WrappedSumUncompletes`,
  with the exact condition in `SummLostIff`).
- Taking an achievement back does not subtract its points (`PointsAfterLoss` says exactly when that shows).
- A full reset leaves the timers alone.  The refill does not start explicit ones again, and their expiry
  then violates an assertion (`ResetTimers`).
- A bid on an auction that is already won is accepted: the winner keeps the item and gets his money
  back, the late bidder pays for nothing (`LateBidPaysForNothing`).  Without late bids settlement is as it
  should be (`WinSettles`), and late bids are all that breaks it (`StepWinners`).
- The buyer bot offers the outbid step itself, not bid plus step, so it lowers every bid of at least 2
  that reaches the start bid (`BotBidDrops`).  It can also pay so much that the owner's uint32 profit
  wraps; `SaleSettles` and `ProfitWraps` give the listings for which it can.  A buyout below the start bid
  keeps every bid below the start bid (`BidsReachStart`).
- A missing item prototype can break the strict weak order that std::sort needs
  (`MissingPrototypeTriple`); `SorterIsOrderIff` says exactly when.
- An item is destroyed only if nobody is there to receive it (`ItemFate`); what the bot wins is always
  destroyed, as it has no character.
- Invite ids are read while the deletions still wait in the transaction, so they keep gaps unless the
  deleted invites had the largest ids (`InviteIdsCompactIff`).  A dangling invite is adopted by a
  stranger exactly when its reference is in 1..n (`OrphanAdopted`).
- The new-event code tests the announcement flag with a logical and, so any flag at all gives the event
  the creator's guild (`NewEventGuild`, `LockedEventGetsGuild`).  The else branch of the invite maximum
  names the event maximum; the ascending order makes that harmless (`MaxInviteIdBounds`).
- One update settles the calendar only if all it removes was written before (`OneUpdateSettles`); two
  always do (`TwoUpdatesSettle`).  Removing invites never empties the invitee set of an event, so the event
  stays until it expires or the server starts again (`EventOutlivesInvites`, `RestartDropsEmpty`).
  A guild announcement has no invitees, so the next update removes it (`AnnouncementGoes`).
- The liquid entry numbers of a tile whose chunks have one type are not written (`PackLiquid`).
- The dump of the condition table lists its initial fill if nothing was inserted (`Dump`).

## Model

| member | source | states |
|---|---|---|
| `AchievementManager.AchievementMgr.SetCriteriaProgress` | src/game/AchievementMgr.cpp:2969-3086 | the method's new state is the engine's SetCriteriaProgress of the old state: clamped change, no record for 0 or for an explicit timer, SET, ACCUMULATE and HIGHEST, then re-entrant completion or recheck |
| `AchievementManager.AchievementMgr.AfterRaise` | src/game/AchievementMgr.cpp:3045-3065 | after a raise: completed criterion, SUMM recheck, then every referencing achievement, in that order, with the nested calls seeing each other's results |
| `AchievementManager.AchievementMgr.CheckReferences` | src/game/AchievementMgr.cpp:3059-3064 | the reference loop equals the recursive engine function although its body re-enters the manager |
| `AchievementManager.AchievementMgr.AfterLower` | src/game/AchievementMgr.cpp:3066-3085 | after a drop: the owner and its references are rechecked and taken back if no longer complete |
| `AchievementManager.AchievementMgr.Recheck` | src/game/AchievementMgr.cpp:3076-3084 | the recheck loop equals the engine function |
| `AchievementManager.AchievementMgr.CompletedCriteriaFor` | src/game/AchievementMgr.cpp:2887-2899 | completes the achievement exactly if it is no counter, is not yet held and is complete |
| `AchievementManager.AchievementMgr.IsCompletedAchievement` | src/game/AchievementMgr.cpp:2901-2967 | the loops with early exits decide the engine's predicate |
| `AchievementManager.AchievementMgr.SummReached` | src/game/AchievementMgr.cpp:2919-2941 | the SUMM loop with its uint32 running total |
| `AchievementManager.AchievementMgr.EnoughCompleted` | src/game/AchievementMgr.cpp:2943-2966 | the counting loop with its two completion conditions |
| `AchievementManager.AchievementMgr.CompletedAchievement` | src/game/AchievementMgr.cpp:3088-3104 | enters the achievement once, adds its points (uint32), then runs the two nested updates |
| `AchievementManager.AchievementMgr.IncompletedAchievement` | src/game/AchievementMgr.cpp:3156-3190 | removes the achievement and its stored row, and leaves the points as they are |
| `AchievementManager.AchievementMgr.UpdateAchievementCriteria` | src/game/AchievementMgr.cpp:905-940 | the dispatch loop: faction, completed and skipped criteria are passed over, the others are set |
| `AchievementEngine.SetCriteriaProgress` | src/game/AchievementMgr.cpp:2969-3086 | with PROGRESS_HIGHEST no held achievement is lost, which is what makes the mutual recursion terminate on the number of open achievements |
| `AchievementEngine.CompletedAchievement` | src/game/AchievementMgr.cpp:3088-3104 | the achievement is held afterwards and nothing held before is lost, through all nested calls |
| `AchievementEngine.OpenDrops` | src/game/AchievementMgr.cpp:3091-3104 | the measure of the recursion strictly drops when an achievement is entered, whatever the links between achievements |
| `AchievementCompletion.CriteriaAscend` | src/game/AchievementMgr.cpp:3299-3336 | the criteria list of an achievement holds each of its criteria once, in row order |
| `AchievementCompletion.CompletionExact` | src/game/AchievementMgr.cpp:2901-2967 | an achievement that sums nothing is complete if and only if it is no counter, is judged by at least one criterion, its own or borrowed, and as many of these as it asks for, or all if it asks for none, are satisfied: goal reached, or started where that is enough, and its realm-first place not taken; the two achievements with wrong data ask for one |
| `AchievementCompletion.HeldByCounters` | src/game/AchievementMgr.cpp:2887-2967 | so after every ordinary run such an achievement, unless realm-first, is held if and only if enough of its counters have reached their goals |
| `AchievementUpdates.WritesCounter` | src/game/AchievementMgr.cpp:2969-3043 | one call writes the counter of a criterion that no nested update writes: SET, capped sum or larger value, cut to the goal; a new record is dated now and starts its timer, an old one keeps its date, none is made for 0 or for a timer started apart; whatever the call sets off, the record stays as written |
| `AchievementUpdates.UpdateExact` | src/game/AchievementMgr.cpp:905-940 | a whole update does this for exactly the criteria of its type whose achievement the side of the player may have, that are not satisfied, and for which a change is decided; no other ordinary counter is touched, and what is entered meanwhile is dated now |
| `AchievementUpdates.TimerExact` | src/game/AchievementMgr.cpp:798-900 | a started timer has a new record of 0; timer and record go exactly when the time limit is over, the record only if the criterion is not satisfied; nothing starts for another event, the other side, a satisfied criterion, a group quest or a start too long ago |
| `AchievementCause.MetaExact` | src/game/AchievementMgr.cpp:3088-3104 | over every run without outright sets a meta criterion the player can use counts if and only if its achievement is held, and a points criterion that is no mere start counts the points, up to its limit, as long as their sum fits a uint32 |
| `AchievementFixpoint.CompletionMonotone` | src/game/AchievementMgr.cpp:2901-2967 | more progress keeps an achievement complete as long as its SUMM total fits uint32 |
| `AchievementFixpoint.RecordUnsettles` | src/game/AchievementMgr.cpp:3035-3065 | writing one counter can leave only the owner and its references unentered, so those are all that need a check |
| `AchievementCascade.CompletedAchievementKeeps` | src/game/AchievementMgr.cpp:3088-3104 | entering an achievement keeps every property of the other achievements and criteria and counts its own links |
| `AchievementCascade.CheckReferencesKeeps` | src/game/AchievementMgr.cpp:3059-3064 | after the loop every listed complete achievement is held |
| `AchievementCascade.AfterRaiseKeeps` | src/game/AchievementMgr.cpp:3045-3065 | a raised counter leaves everything settled that was settled, and the owner and its references too |
| `AchievementCascade.SetCriteriaProgressKeeps` | src/game/AchievementMgr.cpp:2969-3065 | a call that does not lower the counter keeps all per-achievement and per-criterion properties, totals and table agreement |
| `AchievementCascade.UpdateListKeeps` | src/game/AchievementMgr.cpp:918-939 | so does a whole update; a meta update counts every held link, a points update the current points |
| `AchievementLowering.RecheckExact` | src/game/AchievementMgr.cpp:3076-3084 | a recheck keeps every complete achievement and leaves no listed incomplete one |
| `AchievementLowering.LoweredGood` | src/game/AchievementMgr.cpp:3066-3085 | lowering an ordinary counter leaves exactly the complete achievements held |
| `AchievementRuns.RunConsistent` | src/game/AchievementMgr.cpp:861-900 | over every run of updates, sets, saves, timer events, resets and restarts: counters and stored counters stay at most at their maxima, an achievement row exists exactly for a held achievement not marked changed, unchanged counters agree with their rows; without a full reset every timer has its record, so the assertion at expiry holds |
| `AchievementRuns.RunGood` | src/game/AchievementMgr.cpp:905-940 | after every event of an ordinary run the held achievements are exactly the complete ones (a realm-first one may outlive its place) and all links and points are counted |
| `AchievementRuns.HeldIsComplete` | src/game/AchievementMgr.cpp:2887-2967 | without realm-first achievements: held if and only if IsCompletedAchievement, and every eligible meta criterion of a held achievement has counter at least 1 |
| `AchievementRuns.RunCovered` | src/game/AchievementMgr.cpp:3045-3065 | without outright sets no bound on the store is needed: complete implies held, and held implies complete while the sum fits |
| `AchievementRuns.RunPoints` | src/game/AchievementMgr.cpp:3088-3104 | without downgrades the points are the uint32 sum over the held achievements, each counted once, also across resets and restarts |
| `AchievementLimits.PlainCounterHidesCompletion` | src/game/AchievementMgr.cpp:3039-3043 | on one concrete store an achievement that borrows the criterion of a plain counter is complete and not held, because a plain counter does not report |
| `AchievementReach.SetLeaves` | src/game/AchievementMgr.cpp:2969-3086 | whatever one call does, through all nested updates, it leaves every achievement alone that neither the written criterion nor a meta or points criterion is looked up for |
| `AchievementReach.UnwatchedNeverHeld` | src/game/AchievementMgr.cpp:3039-3085 | in no run of updates, settings, timers, saves, resets and restarts is an achievement held that no reporting criterion is looked up for |
| `AchievementReach.BorrowerNeverHeld` | src/game/AchievementMgr.cpp:3039-3065 | so an achievement that borrows the criteria of a plain counter and has no criterion of its own is never held, complete or not |
| `AchievementReach.BorrowerExact` | src/game/AchievementMgr.cpp:3036-3085 | with ordinary criteria of its own it is entered exactly when one of these is raised while it is complete and the criterion is completed, too (or the achievement sums), and taken back exactly when one of these is lowered and it is no longer complete |
| `AchievementLimits.WrappedSumUncompletes` | src/game/AchievementMgr.cpp:2919-2941 | more progress can make a SUMM achievement incomplete once the uint32 sum wraps |
| `AchievementLimits.SummExact` | src/game/AchievementMgr.cpp:2919-2941 | the SUMM loop succeeds if and only if some running total, cut to a uint32, reaches the threshold of its criterion |
| `AchievementLimits.SummLostIff` | src/game/AchievementMgr.cpp:2919-2941 | more progress makes a complete SUMM achievement incomplete if and only if no wrapped total reaches its threshold any more, and then every total that did before overflows |
| `AchievementPersistence.AccumulateSaturates` | src/game/AchievementMgr.cpp:3019-3025 | ACCUMULATE is the capped sum if and only if the old counter does not exceed the maximum |
| `AchievementPersistence.PointsAfterLoss` | src/game/AchievementMgr.cpp:3156-3190 | after an achievement is taken back the points are still the sum if and only if it was worth nothing |
| `AchievementManager.AchievementMgr.SaveToDB` | src/game/AchievementMgr.cpp:554-609 | both write-behind loops together equal one simultaneous save |
| `AchievementManager.AchievementMgr.LoadCompleted` | src/game/AchievementMgr.cpp:616-637 | the achievement half of LoadFromDB row by row |
| `AchievementManager.AchievementMgr.LoadCounter` | src/game/AchievementMgr.cpp:644-693 | one counter row: unknown criteria deleted, open timers continued or failed, counters above the maximum cut |
| `AchievementManager.AchievementMgr.LoadFromDB` | src/game/AchievementMgr.cpp:611-699 | both loops of the load |
| `AchievementManager.AchievementMgr.Reset` | src/game/AchievementMgr.cpp:428-453 | everything but the timers is cleared, then the updates of all types refill the data |
| `AchievementManager.AchievementMgr.StartTimedAchievementCriteria` | src/game/AchievementMgr.cpp:798-856 | starts the timers of the open explicit criteria of one type and id that are not over yet |
| `AchievementManager.AchievementMgr.DoFailedTimedAchievementCriterias` | src/game/AchievementMgr.cpp:861-900 | drops every expired timer and the record of every one that failed; the assertion inside holds under the stated condition |
| `AchievementPersistence.SaveThenLoad` | src/game/AchievementMgr.cpp:554-637 | loading what was saved restores the same achievements with their dates and the sum of their points |
| `AchievementRestart.RestartRestores` | src/game/AchievementMgr.cpp:611-699 | a new manager holds exactly the stored achievements and the stored counters of known criteria, and a timer exactly for the open ones |
| `AchievementRestart.SaveThenRestart` | src/game/AchievementMgr.cpp:554-699 | save and restart bring back every achievement and every nonzero counter with its date |
| `AchievementRestart.RestartConsistent` | src/game/AchievementMgr.cpp:611-699 | a restarted manager is consistent again |
| `AchievementTables.RecordComesBack` | src/game/AchievementMgr.cpp:554-699 | save and restart, record by record: lost exactly if it is 0 and either changed and without time limit, or unchanged and not stored; every other one returns with counter and date, and its timer runs from that date exactly if it has a limit and is not satisfied |
| `AchievementTables.RowIsCut` | src/game/AchievementMgr.cpp:650-693 | a loaded counter above its maximum is cut to it and marked for saving; any other is loaded as it stands |
| `AchievementTables.UnknownRowsGo` | src/game/AchievementMgr.cpp:644-657 | a start deletes the rows of unknown criteria and no others |
| `AchievementTables.ResetForgets` | src/game/AchievementMgr.cpp:428-453 | a reset leaves nothing in the tables: a restart after it starts from nothing |
| `AchievementReach.ResetTimers` | src/game/AchievementMgr.cpp:446-452 | after a reset with any refill an explicit timer that was running has no record, so its expiry violates the assertion; at any later time the assertion holds if and only if no timer without a new record has expired |
| `ConditionConverter.Converter.InsertCondition` | contrib/convertConditions/ConvertConditions.py:63-69 | appends one entry and keeps ids equal to positions |
| `ConditionConverter.Converter.FindCondition` | contrib/convertConditions/ConvertConditions.py:71-75 | the linear search returns the first matching id or 0 |
| `ConditionConverter.Converter.TwoVector` | contrib/convertConditions/ConvertConditions.py:202-211 | the id of a pair: found in either order or appended |
| `ConditionConverter.Converter.ThreeVector` | contrib/convertConditions/ConvertConditions.py:171-200 | the id of a triple: three pair lookups, six top lookups, or new nodes |
| `ConditionConverter.Converter.ProgressRow` | contrib/convertConditions/ConvertConditions.py:100-220 | one row in one phase: its UPDATE id, 0 for none |
| `ConditionConverter.Converter.ProgressTable` | contrib/convertConditions/ConvertConditions.py:79-225 | all rows of one table in order |
| `ConditionConverter.Converter.DoTables` | contrib/convertConditions/ConvertConditions.py:260-299 | the tables a database has in a phase |
| `ConditionConverter.Converter.RunAll` | contrib/convertConditions/ConvertConditions.py:308-313 | four phases over all databases equal the functional run |
| `ConditionConverter.Converter.Dump` | contrib/convertConditions/ConvertConditions.py:315-325 | lists every inserted entry in order, and the initial fill alone if there is none |
| `ConditionTable.EvalIsConjunction` | contrib/convertConditions/ConvertConditions.py:63-69 | an id means the conjunction of the plain conditions below it under every truth assignment; nodes refer to smaller ids, so this is well founded |
| `ConditionTable.EvalStable` | contrib/convertConditions/ConvertConditions.py:63-69 | later inserts never change what an id means |
| `ConditionTable.InsertValid` | contrib/convertConditions/ConvertConditions.py:63-69 | inserting what no id stands for keeps the table canonical: no two ids stand for the same conditions |
| `ConditionTable.FindExact` | contrib/convertConditions/ConvertConditions.py:71-75 | the lookup is sound and complete |
| `ConditionTable.FindAtom` | contrib/convertConditions/ConvertConditions.py:71-75 | a plain condition is found exactly when some id stands for it alone |
| `ConditionTable.FindPairComplete` | contrib/convertConditions/ConvertConditions.py:174-183 | the AND of two atoms is found exactly when some id stands for the two conditions |
| `ConditionRows.SortedPrefix` | contrib/convertConditions/ConvertConditions.py:112-128 | the compare-and-swap steps make the active conditions of a row a prefix and lose none |
| `ConditionRows.InsertAtomsValid` | contrib/convertConditions/ConvertConditions.py:136-144 | phase 0 gives every condition of a row an id and keeps the table canonical |
| `ConditionRows.TwoPointStands` | contrib/convertConditions/ConvertConditions.py:202-211 | the id of a pair stands for exactly its two conditions |
| `ConditionRows.TopShape` | contrib/convertConditions/ConvertConditions.py:185-200 | a node for three atoms is the AND of one of them and the pair of the others |
| `ConditionRows.NoTop` | contrib/convertConditions/ConvertConditions.py:174-194 | if none of the six lookups hits, no id stands for the three conditions |
| `ConditionRows.ThreePointStands` | contrib/convertConditions/ConvertConditions.py:171-200 | the id of a triple stands for exactly its three conditions and the table stays canonical |
| `ConditionRun.PhaseRefsOnce` | contrib/convertConditions/ConvertConditions.py:260-299 | a phase visits each of its rows once |
| `ConditionRun.Phase0Row` | contrib/convertConditions/ConvertConditions.py:136-144 | after phase 0 every lookup of the later phases succeeds |
| `ConditionRun.LaterRow` | contrib/convertConditions/ConvertConditions.py:147-220 | phase n writes an id for the rows of n conditions and for no other |
| `ConditionRun.RunExact` | contrib/convertConditions/ConvertConditions.py:308-313 | after every run: a canonical table, and exactly one UPDATE for each row with a condition, none for the others |
| `ConditionRun.SameIdSameConditions` | contrib/convertConditions/ConvertConditions.py:171-220 | two rows of any databases get the same id if and only if they have the same multiset of conditions |
| `ConditionRun.IdMeansRow` | contrib/convertConditions/ConvertConditions.py:170-220 | an emitted id means the conjunction of its row's conditions in the final table |
| `ConditionOrigin.EveryEntryMade` | contrib/convertConditions/ConvertConditions.py:63-69 | after every run the table holds nothing unneeded: each entry but the initial one names the database of some row and stands for some of the conditions of that row |
| `ConditionOrigin.TablesServed` | contrib/convertConditions/ConvertConditions.py:260-299 | the tables of a database of each expansion, with the number of conditions of their rows, are exactly those named |
| `ConditionOrigin.EveryRowServed` | contrib/convertConditions/ConvertConditions.py:260-313 | every row of each such table is given its id by exactly one UPDATE if it has a condition, and by none otherwise |
| `AuctionManager.AuctionHouseMgr.ChangeMoney` | src/game/Player.h:1536-1546 | the purse is clamped at 0 and at the limit |
| `AuctionManager.AuctionHouseMgr.SendRefund` | src/game/AuctionHouseHandler.cpp:153-205 | an outbid or cancelled bid goes back by mail, or to nobody if the character is gone |
| `AuctionManager.AuctionHouseMgr.SendItemMail` | src/game/AuctionHouseMgr.cpp:80-176 | the escrowed item leaves for its receiver or is destroyed |
| `AuctionManager.AuctionHouseMgr.AddAuction` | src/game/AuctionHouseMgr.cpp:891-930 | a new auction with its item in escrow and its deposit paid |
| `AuctionManager.AuctionHouseMgr.UpdateBid` | src/game/AuctionHouseMgr.cpp:1007-1048 | cap at the buyout, pay the difference or refund the old bidder, then bid or win |
| `AuctionManager.AuctionHouseMgr.AuctionBidWinning` | src/game/AuctionHouseMgr.cpp:994-1005 | the auction becomes pending and its item goes to the winner |
| `AuctionManager.AuctionHouseMgr.HandleAuctionPlaceBid` | src/game/AuctionHouseHandler.cpp:385-454 | all checks in order, then the bid |
| `AuctionManager.AuctionHouseMgr.HandleAuctionRemoveItem` | src/game/AuctionHouseHandler.cpp:457-527 | cancel: refund, cut, item home, auction gone |
| `AuctionManager.AuctionHouseMgr.BotBid` | src/game/AuctionHouseBot/AuctionHouseBot.cpp:725-804 | the buyer bot on an active auction: a buyout, or the outbid step where a bid reaches the start bid, else the start bid |
| `AuctionManager.AuctionHouseMgr.UpdateOne` | src/game/AuctionHouseMgr.cpp:564-605 | one auction's turn in the periodic update: deliver, settle or expire |
| `AuctionManager.AuctionHouseMgr.Update` | src/game/AuctionHouseMgr.cpp:480-484 | the update of the three houses |
| `AuctionTicks.TickExact` | src/game/AuctionHouseMgr.cpp:480-605 | an update does to each entry of the three houses exactly what is due: an overdue auction without bid comes home, one with a bid is won with its delivery an hour ahead, an overdue delivery is made, everything else stays as it is, and no other house is touched |
| `AuctionTicks.RunTicks` | src/game/AuctionHouseMgr.cpp:480-605 | so after an update in any run no auction of the three houses is past its end and still active, and no delivery is overdue |
| `AuctionMoney.UpdateBidTotal` | src/game/AuctionHouseMgr.cpp:1007-1048 | a bid that the purse covers keeps the total of all money |
| `AuctionMoney.CancelTotal` | src/game/AuctionHouseHandler.cpp:496-506 | so does a cancellation |
| `AuctionMoney.DeliverTotal` | src/game/AuctionHouseMgr.cpp:179-217 | so does a delivery |
| `AuctionMoney.ExpireTotal` | src/game/AuctionHouseMgr.cpp:220-262 | so does an expiry |
| `AuctionSteps.UpdateBidKeeps` | src/game/AuctionHouseMgr.cpp:1007-1048 | a bid keeps the one-to-one match of active auctions and escrowed items, the single place of every item, and every bidder's account |
| `AuctionSteps.CancelKeeps` | src/game/AuctionHouseHandler.cpp:457-527 | a cancellation keeps them |
| `AuctionSteps.DeliverKeeps` | src/game/AuctionHouseMgr.cpp:179-217 | a delivery keeps them |
| `AuctionSteps.ExpireKeeps` | src/game/AuctionHouseMgr.cpp:220-262 | an expiry keeps them |
| `AuctionRuns.RunKeeps` | src/game/AuctionHouseMgr.cpp:564-605 | over every run in three houses: escrow matches, each item is in exactly one place, bids are sound, accounts balance, and the total of purses, mails, bids, deposits and house never changes |
| `AuctionRuns.RunSettles` | src/game/AuctionHouseMgr.cpp:462-478 | after every run an outbid bidder whose refunds arrived is even, a standing or final one has paid exactly his bid, a pending auction holds no item, and the next item is not in escrow yet |
| `AuctionRuns.AcceptedBid` | src/game/AuctionHouseHandler.cpp:402-446 | what the checks of a bid guarantee, without wrap-around |
| `AuctionDeals.AcceptedIff` | src/game/AuctionHouseHandler.cpp:402-446 | the checks accept a bid if and only if the auction is in that house, belongs to somebody else, who is online or of another account, and the price is covered, at least the start bid, above the old bid, and either a raise of 5 for every full 100, at least 1, or a buyout; wrap-around never matters |
| `AuctionDeals.BidExact` | src/game/AuctionHouseMgr.cpp:1007-1048 | an acceptable bid on a standing auction, and no other, enters bidder and price, capped at the buyout; mails the whole old bid to another old bidder; takes the price, or the difference for the same bidder; and on a buyout mails the item and sets the delivery an hour ahead |
| `AuctionDeals.BotBidExact` | src/game/AuctionHouseBot/AuctionHouseBot.cpp:795-804 | the bid of the bot is the buyout if it wants that, else the bare step where a bid reaches the start bid, else the start bid, and never above the buyout |
| `AuctionDeals.SaleExact` | src/game/AuctionHouseMgr.cpp:890-929 | a sale lists the next item under the next id with the terms of the seller and its end, takes the deposit, and touches nothing else; it is refused without start bid or deposit |
| `AuctionDeals.SaleTerms` | src/game/AuctionHouseMgr.cpp:890-929 | what the terms mean later: before any bid exactly the covered prices from the start bid on are accepted, and an update takes the item home exactly after its duration |
| `AuctionDeals.CancelExact` | src/game/AuctionHouseHandler.cpp:457-527 | an owner, and nobody else, cancels his standing auction if he can pay the cut of its bid: the bidder gets all of it back, the owner pays the cut and gets the item by mail, and the auction is gone |
| `AuctionRuns.BidDiscipline` | src/game/AuctionHouseHandler.cpp:420-454 | an accepted bid raises the bid by at least the step and stays below the buyout, or buys out; it is at least the start bid if and only if the buyout is 0 or at least the start bid; the purse pays exactly the difference |
| `AuctionRuns.BotBidDrops` | src/game/AuctionHouseBot/AuctionHouseBot.cpp:795-804 | the bot's bid lowers the bid if and only if it does not buy out and there is a bid of at least 2 that reaches the start bid |
| `AuctionSettlement.WinSettles` | src/game/AuctionHouseMgr.cpp:80-168 | settlement over runs: if no bid comes late, every won item is the listed one, its receiver is the bidder of the pending or sold entry, and he has paid exactly that bid |
| `AuctionSettlement.StepWinners` | src/game/AuctionHouseHandler.cpp:402-454 | a step separates a won item from the bidder if and only if it is an accepted bid of somebody else on a pending auction whose item was mailed |
| `AuctionSettlement.LateBidPaysForNothing` | src/game/AuctionHouseMgr.cpp:1007-1048 | the run that shows it: the winner has item and refund, the late bidder has paid 200 for nothing |
| `AuctionDelivery.ItemFate` | src/game/AuctionHouseMgr.cpp:564-605 | over every run each listed item is in escrow exactly while its auction stands; it is destroyed exactly if some event settled the auction for an owner or bidder who did not exist then; else it is in one single mail, to the winner of a won, the owner of an expired or cancelled auction; a cancelled item is never destroyed |
| `AuctionDelivery.StepDestroys` | src/game/AuctionHouseMgr.cpp:80-262 | a step destroys an item if and only if its auction stood and the step lets it expire for an owner, or be won by a bidder, who does not exist at that event |
| `AuctionDelivery.RunDestroys` | src/game/AuctionHouseMgr.cpp:80-262 | over every run the destroyed items are exactly those that some event settled for nobody |
| `AuctionDelivery.ItemArrives` | src/game/AuctionHouseMgr.cpp:80-262 | in every run without late bids a player who exists throughout gets what is his: the item of an auction he won, or of one of his that expired, is not destroyed and in one single mail to him |
| `AuctionSettlement.OwnerSettles` | src/game/AuctionHouseMgr.cpp:179-262 | the account of the owner over every run: the deposit gone from the listing on, nothing more on expiry, the cut, rounded down, of a cancelled auction with a bid, the profit of a sale |
| `AuctionLedger.DeliverLedgers` | src/game/AuctionHouseMgr.cpp:179-217 | a delivery keeps the owners' accounts, the terms of every entry, its single outcome, and what each mail says about it |
| `AuctionLedger.UpdateBidLedgers` | src/game/AuctionHouseMgr.cpp:1007-1048 | so does a bid; on an active auction it also keeps won items with the bidders |
| `AuctionLedger.CancelLedgers` | src/game/AuctionHouseHandler.cpp:457-527 | so does a cancellation |
| `AuctionPrices.BidNeverDrops` | src/game/AuctionHouseMgr.cpp:1007-1048 | between any two moments of a run at which an auction is open its bid has not dropped, unless the bot lowered it in between |
| `AuctionPrices.BidsReachStart` | src/game/AuctionHouseHandler.cpp:420-454 | in every run without bot bids a bid reaches the start bid if and only if the buyout is 0 or at least the start bid |
| `AuctionPrices.SaleSettles` | src/game/AuctionHouseMgr.cpp:179-217 | in every run without bot bids, and with them if the highest price of the bot less cut plus deposit fits a uint32, the profit of the owner is the bid less the cut, rounded down, plus the deposit, and the sale has brought him the bid less the cut |
| `AuctionPrices.ProfitWraps` | src/game/AuctionHouseMgr.cpp:204-215 | the condition is exact: for every listing with uint32 prices that fails it there is a run in which the bot buys and the owner gets too little |
| `AuctionPrices.PursesExact` | src/game/Player.h:1536-1546 | over every run a purse is what it was at the start less all its player was charged for bids, deposits and cuts |
| `AuctionSorter.Less` | src/game/AuctionHouseMgr.cpp:772-791 | the loop decides whether some column puts the first entry first with ties in all columns before it |
| `AuctionSorter.CompareTextIsLexicographic` | src/game/AuctionHouseMgr.cpp:695-735 | the text comparison is the lexicographic order |
| `AuctionSorter.ColumnLaws` | src/game/AuctionHouseMgr.cpp:639-770 | each column comparison is antisymmetric and transitive on entries with prototypes |
| `AuctionSorter.ColumnMeaning` | src/game/AuctionHouseMgr.cpp:639-791 | what each column sorts by: level, quality, buyout then bid, end, bidder, item name, price then buyout, owner name, price, count, buyout, the price being the bid or, without one, the start bid |
| `AuctionSorter.ReversedMeaning` | src/game/AuctionHouseMgr.cpp:772-791 | the reversed bit exchanges the two entries |
| `AuctionSorter.FirstColumnDecides` | src/game/AuctionHouseMgr.cpp:772-791 | of several columns the first decides, and the others where it ties |
| `AuctionSorter.SignDecides` | src/game/AuctionHouseMgr.cpp:772-791 | the comparator is the sign of the first differing column |
| `AuctionSorter.SorterIsStrictWeakOrder` | src/game/AuctionHouseMgr.cpp:772-791 | for every specification of normal and reversed columns the comparator is a strict weak order when all prototypes are known |
| `AuctionSorter.MissingPrototypeBreaksOrder` | src/game/AuctionHouseMgr.cpp:643-666 | sorting by level, quality or name is a strict weak order if and only if no prototype is missing or all entries tie |
| `AuctionSorter.SorterIsOrderIff` | src/game/AuctionHouseMgr.cpp:643-791 | for every specification and every set of entries the comparator is a strict weak order if and only if no two entries that the prototype columns reorder have an entry without prototype between them in the order of the other columns |
| `AuctionSorter.MissingPrototypeTriple` | src/game/AuctionHouseMgr.cpp:643-791 | buyout then level on three entries of one buyout, one of unknown level, is no strict weak order |
| `AuctionListing.BuildListAuctionItems` | src/game/AuctionHouseMgr.cpp:793-861 | a search emits exactly positions listfrom to listfrom + 49 of the filtered list and the full match count; a full scan emits every listed auction |
| `AuctionListing.PagesCoverList` | src/game/AuctionHouseMgr.cpp:849-859 | pages at 0, 50, 100, ... concatenate to the filtered list |
| `AuctionListing.PagesArePrefix` | src/game/AuctionHouseMgr.cpp:849-859 | any number of pages is a prefix of it |
| `AuctionListing.FilteredIsMatches` | src/game/AuctionHouseMgr.cpp:800-847 | the filtered list holds exactly the active auctions with an item that meet every filter |
| `AuctionListing.FilteredSplits` | src/game/AuctionHouseMgr.cpp:798-860 | filtering keeps the listing order |
| `CalendarManager.CalendarMgr.DBRemap` | src/game/Calendar.cpp:504-551 | queues the statements of one remap action |
| `CalendarManager.CalendarMgr.NumberEvents` | src/game/Calendar.cpp:560-573 | numbers the live events with a running id and marks the expired ones |
| `CalendarManager.CalendarMgr.NumberInvites` | src/game/Calendar.cpp:586-599 | lists the invites whose id is not their position |
| `CalendarManager.CalendarMgr.DBRemoveExpiredEventsAndRemapData` | src/game/Calendar.cpp:553-603 | the whole clean-up equals one committed queue of statements |
| `CalendarManager.CalendarMgr.LoadTables` | src/game/Calendar.cpp:605-735 | the stores, flags and next ids read from clean tables |
| `CalendarManager.CalendarMgr.LoadFromDB` | src/game/Calendar.cpp:605-735 | clean-up and load together |
| `CalendarRemap.RenamesAreSimultaneous` | src/game/Calendar.cpp:527-549 | ascending renames one at a time never meet a key in use and equal one simultaneous injective renaming |
| `CalendarRemap.DeletesExecute` | src/game/Calendar.cpp:519-526 | the deletions remove the expired events and exactly their invites |
| `CalendarRemap.MoveAllIsImage` | src/game/Calendar.cpp:529-538 | the references of the invites follow the same renaming |
| `CalendarCompaction.NumberingIsExact` | src/game/Calendar.cpp:560-573 | the remap list holds each id once with the number of live ids before it |
| `CalendarCompaction.RankListRenames` | src/game/Calendar.cpp:577-580 | the filtered list renames to ranks and is collision free |
| `CalendarCompaction.CompactIsSimultaneous` | src/game/Calendar.cpp:553-603 | with positive ids the transaction never fails and amounts to a simultaneous order-preserving renumbering of events, references and invites |
| `CalendarStartup.EventIdsAreCompact` | src/game/Calendar.cpp:560-580 | the live events get exactly the ids 1..n in their old order |
| `CalendarStartup.SurvivorKeepsEvent` | src/game/Calendar.cpp:527-538 | a surviving invite still belongs to its own event |
| `CalendarStartup.IntegrityKept` | src/game/Calendar.cpp:519-549 | with referential integrity the invites of expired events are gone and integrity is kept |
| `CalendarStartup.OrphanAdopted` | src/game/Calendar.cpp:527-538 | an invite without an event is adopted by a stranger if and only if its reference is in 1..n |
| `CalendarStartup.InviteIdsCompactIff` | src/game/Calendar.cpp:582-599 | the invite ids become 1..m if and only if every deleted invite had a larger id than every surviving one |
| `CalendarStartup.GapAfterDeletion` | src/game/Calendar.cpp:582-599 | a concrete table that keeps a gap |
| `CalendarStartup.InviteOrderKept` | src/game/Calendar.cpp:582-599 | surviving invites keep their order |
| `CalendarManager.CalendarMgr.GetInviteByGuid` | src/game/Calendar.cpp:59-74 | returns some live invite of the player, or none if there is none |
| `CalendarManager.CalendarMgr.AddEvent` | src/game/Calendar.cpp:299-331 | the checks and the new unsaved event |
| `CalendarManager.CalendarMgr.AddInvite` | src/game/Calendar.cpp:355-394 | the new unsaved invite; for an announcement it is marked deleted and not listed |
| `CalendarManager.CalendarMgr.CopyEvent` | src/game/Calendar.cpp:426-476 | the copy with its invites in the order of the walk |
| `CalendarManager.CalendarMgr.RemoveEvent` | src/game/Calendar.cpp:333-353 | only the creator marks an event deleted |
| `CalendarManager.CalendarMgr.RemoveInvite` | src/game/Calendar.cpp:107-146 | the permission checks and the mark |
| `CalendarManager.CalendarMgr.UpdateEvent` | src/game/CalendarHandler.cpp:337-373 | creator or moderator replaces the columns and clears SAVED |
| `CalendarManager.CalendarMgr.SetStatus` | src/game/CalendarHandler.cpp:519-574 | an answer changes status and time and clears SAVED |
| `CalendarManager.CalendarMgr.SetRank` | src/game/CalendarHandler.cpp:653-707 | a promotion changes the rank, never to owner, and clears SAVED |
| `CalendarManager.CalendarMgr.RemoveCalendar` | src/game/Calendar.cpp:478-502 | all events of a player, or his guild events, and his own invites to them are marked |
| `CalendarManager.CalendarMgr.MarkAllEvents` | src/game/Calendar.cpp:868-881 | expired and empty events are marked |
| `CalendarManager.CalendarMgr.MarkAllInvites` | src/game/Calendar.cpp:883-892 | invites without a live event are marked |
| `CalendarManager.CalendarMgr.SaveAllEvents` | src/game/Calendar.cpp:737-767 | the event loop with the destructor's effect on invites equals one simultaneous save, in any walking order |
| `CalendarManager.CalendarMgr.SaveAllInvites` | src/game/Calendar.cpp:769-796 | the invite loop likewise |
| `CalendarManager.CalendarMgr.Update` | src/game/Calendar.cpp:866-896 | mark, then save |
| `CalendarRequests.CopyExact` | src/game/Calendar.cpp:426-476 | the copy of a live event is the old row at the new time with the copier as creator; its invites stand one for one, in order, for the live ones of the old event, the copier confirmed as owner, the others invited anew with their moderator rank; an announcement is copied without; everything old is unchanged, and a refused copy changes nothing |
| `CalendarRequests.InviteIsStored` | src/game/Calendar.cpp:355-394 | after the next update a new invite is in the table as the sender gave it, and so is its event; an invite to an announcement is never alive |
| `CalendarRequests.AnswerIsStored` | src/game/CalendarHandler.cpp:479-574 | after the next update the table has the new status and its time if the invitee, a moderator or the owner answered and, for the own button, the event is not locked or the answer is to leave; otherwise the row is as it was |
| `CalendarRequests.RankIsStored` | src/game/CalendarHandler.cpp:653-707 | so with a new rank, except that of the owner |
| `CalendarRequests.EditIsStored` | src/game/CalendarHandler.cpp:337-373 | so with an edited event, whose creator and guild stay |
| `CalendarRequests.RemovalIsStored` | src/game/Calendar.cpp:333-353 | an event its creator removes is out of the table after two updates; anybody else leaves it as it was |
| `CalendarRequests.UninviteIsStored` | src/game/Calendar.cpp:107-146 | so with an invite removed by its invitee, a moderator or the owner, unless it is that of the creator |
| `CalendarRequests.DepartureIsStored` | src/game/Calendar.cpp:478-502 | exactly the events of a departed player, or the guild events and announcements of one who left the guild, are gone after two updates |
| `CalendarRequests.DepartureOfInvites` | src/game/Calendar.cpp:478-502 | of the invites exactly his own to these events are gone at once |
| `CalendarRequests.EventTimesOut` | src/game/Calendar.h:242-246 | an event with invitees stays until its time plus the delay has come, and for ever if the delay is negative |
| `CalendarWriteBack.AddInviteKeeps` | src/game/Calendar.cpp:355-394 | keeps stores and tables in step; the invite is alive unless the event is an announcement, so the error branch is never taken |
| `CalendarWriteBack.NewEventGuild` | src/game/Calendar.cpp:323 | a new event carries the guild only for guild events and announcements if and only if there is no guild, no flag at all, or one of the two flags |
| `CalendarWriteBack.LockedEventGetsGuild` | src/game/Calendar.cpp:323 | a private event that only locks its invites gets the creator's guild |
| `CalendarWriteBack.SetStatusKeeps` | src/game/CalendarHandler.cpp:559-566 | an answer keeps stores and tables in step because it clears SAVED |
| `CalendarWriteBack.UpdateEventKeeps` | src/game/CalendarHandler.cpp:358-367 | so does an update of an event |
| `CalendarWriteBack.SetRankKeeps` | src/game/CalendarHandler.cpp:696-699 | so does a promotion |
| `CalendarWriteBack.LoadKeeps` | src/game/Calendar.cpp:605-735 | after a start saved entries equal their rows and the next ids are fresh |
| `CalendarWriteBack.MaxInviteIdBounds` | src/game/Calendar.cpp:715 | the running maximum is right although its else branch names the wrong variable, because the rows ascend |
| `CalendarRuns.NextIdsAfterStart` | src/game/Calendar.cpp:605-735 | after a start the next event id is one more than the number of events left, the next invite id one more than the largest left |
| `CalendarWriteBack.TwoUpdatesSettle` | src/game/Calendar.cpp:866-896 | from every consistent state two updates at one time leave nothing deleted, tables equal to stores, and every invite with a live event |
| `CalendarRuns.RunConsistent` | src/game/Calendar.cpp:737-797 | over every run of requests, updates and restarts a saved entry has a row equal to it, no row is unknown, ids stay fresh and invite sets own their invites |
| `CalendarRuns.RunThenTwoUpdates` | src/game/Calendar.cpp:866-896 | from any start over any run, restarts included, two updates settle everything |
| `CalendarRuns.SettledIsFixed` | src/game/Calendar.cpp:866-896 | a third update changes nothing |
| `CalendarRuns.OneUpdateIsNotEnough` | src/game/Calendar.cpp:743-752 | an event made and removed between updates is first written and goes only with the second update |
| `CalendarWriteBack.OneUpdateSettles` | src/game/Calendar.cpp:866-896 | one update settles if and only if every event and invite it removes was written before |
| `CalendarRuns.RestartRestores` | src/game/Calendar.cpp:605-735 | a start from the tables of a settled calendar brings back every event and invite, alive and saved, renumbered by rank |
| `CalendarRuns.InviteesNeverShrink` | src/game/Calendar.cpp:76-89 | over every run without a restart the invitee set of an event only grows, and no old event id comes back |
| `CalendarRuns.EventOutlivesInvites` | src/game/Calendar.cpp:874-881 | so an event that had an invitee once is removed by a later update if and only if it has expired, even if all its invites are gone |
| `CalendarRuns.AnnouncementGoes` | src/game/Calendar.cpp:376-380 | a new guild announcement never gets an invitee, so whatever is requested, unless it is edited, the next update removes it |
| `CalendarRuns.RestartDropsEmpty` | src/game/Calendar.cpp:605-735 | after a start the first update keeps an event if and only if it has not expired and some invite row names it |
| `CellVisit.CellRoundTrip` | src/game/CellImpl.h:27-35 | a cell leads back to its pair if and only if the pair is on the map |
| `CellVisit.CellsDiffer` | src/game/Cell.h:81-86 | different cells of the map have different bit fields |
| `CellVisit.XShiftBounds` | src/game/CellImpl.h:129-130 | the shift in exact arithmetic, and that it is at most half the width |
| `CellVisit.VisitColumns` | src/game/CellImpl.h:163-178 | the unsigned countdown visits both columns exactly between its bounds and ends |
| `CellVisit.VisitBorders` | src/game/CellImpl.h:155-179 | all steps together visit exactly the two trapezoids, or run off the map |
| `CellVisit.FillOctagon` | src/game/CellImpl.h:126-180 | exactly the rectangle without four corner triangles is visited, each cell once, when the shift is within the upper border; otherwise the countdown wraps |
| `CellVisit.VisitCircle` | src/game/CellImpl.h:126-180 | every visit is on the map if and only if the shift is within the upper border |
| `CellVisit.VisitRectangle` | src/game/CellImpl.h:103-123 | the standing cell first, then every other cell of the rectangle once |
| `CellVisit.Visit` | src/game/CellImpl.h:60-123 | which of the forms is taken, and what it visits |
| `CellVisit.SearchNeverWraps` | src/game/CellImpl.h:97-101 | for every span above 4 and width up to 18 the condition holds |
| `MapPacking.FindRange` | contrib/extractor/System.cpp:525-544 | the running extremes of a height array |
| `MapPacking.RaiseHeights` | contrib/extractor/System.cpp:546-556 | heights below the limit are raised in place |
| `MapPacking.Quantised` | contrib/extractor/System.cpp:350-358 | a height of the range is stored in at most 8 or 16 bits |
| `MapPacking.QuantisationIsFaithful` | contrib/extractor/System.cpp:350-358 | and decodes within half a step |
| `MapPacking.HeightsAreRecovered` | contrib/extractor/System.cpp:525-622 | for every configuration and every heights each point comes back within 1/255 for 8 bits, 1024/65535 for 16, 0.005 for flat tiles, exactly for floats |
| `MapPacking.FormExact` | contrib/extractor/System.cpp:525-622 | minimum and maximum are those of the heights after the configured limit, and decide the form: flat if equal or, where rounding is allowed, closer than 0.005; then 8 bits below 2, 16 bits below 2048, floats otherwise |
| `MapFile.HeaderTilesFile` | contrib/extractor/System.cpp:434-844 | sizes are the bytes of the sections, offsets where the section before ends, no gap and no overlap, under all flags |
| `MapFile.LoadAreaWritten` | src/game/GridMap.cpp:151-167 | the area section reads back |
| `MapFile.LoadHeightsWritten` | src/game/GridMap.cpp:169-211 | the height section reads back in every form |
| `MapFile.LoadLiquidWritten` | src/game/GridMap.cpp:213-244 | the liquid section reads back in every form |
| `MapFile.LoadWritten` | src/game/GridMap.cpp:73-120 | reading a written file gives back every section |
| `MapFile.HeaderWritten` | contrib/extractor/System.cpp:859-909 | what the reader ignores: the header names the build and the bytes of every section, and the holes are where it says and come back |
| `MapConverter.PackArea` | contrib/extractor/System.cpp:420-449 | one area or all, and every chunk's area recovered |
| `MapConverter.ConvertHeights` | contrib/extractor/System.cpp:525-622 | range, limit and packing on the arrays equal the specification |
| `MapConverter.ScanLiquid` | contrib/extractor/System.cpp:775-805 | the box bounds the shown cells, touches one on every side, and their heights are untouched |
| `MapConverter.CopyRows` | contrib/extractor/System.cpp:897-898 | the rows of the box in order |
| `MapConverter.PackLiquid` | contrib/extractor/System.cpp:775-844 | every liquid type and every shown height is recovered, the entry numbers of the chunks if and only if these differ in type, and the box fits its bytes |
| `MapConverter.WriteFile` | contrib/extractor/System.cpp:859-909 | the writes under the header flags, holes included, produce the specified file |
| `MapConverter.ConvertADT` | contrib/extractor/System.cpp:385-910 | the file has exactly the announced length, names the build, and reads back to sections that recover areas, heights, liquid and holes, entry numbers if they are written |

## Left out

- Packets, logging, chat, SQL text and the asynchronous execution of saves: tables are maps, mail is an outbox, time is a parameter of each event.
- The per-type bodies of the achievement update and of its requirement checks are game data; an update carries the decision (skip, or change and progress type) for each criterion, except the two types that read the manager itself.
- Titles, reward mail and the exemption of game masters; realm-first places are the parameter `realmTaken`.
- The decisions of the refill at the end of an achievement reset are a parameter, any sequence of updates; criteria whose achievement is missing from the store (loading removes such criteria).
- AchievementRuns.HeldIsComplete: assumes that no achievement that can be complete borrows a plain counter and that the largest sums fit uint32; there is a store for each that shows what goes wrong without it.
- AchievementRuns.RunGood: timer events, resets and restarts are not ordinary events, because they lower counters without a recheck.
- Conditions already in the database (`loadOldConditions = 1`), SQL NULLs and rows that share their key columns; each table is a sequence of rows that does not change between phases.
- The inventory part of selling, loading auctions at startup and taking mail, so purses are not refilled from mails; the three houses share one map with a house tag, and entries are values, so aliasing of entries is not captured.
- AuctionHouse.Auction.Cut: an exact real rate of at most 1 stands for the float arithmetic of the cut.
- The dice and price estimates of the buyer bot: whether it bids or buys out is a parameter of its bid.
- The order in which std::sort arranges ties, and the locale tables behind item names; texts are sequences of code units.
- CalendarCompaction.CompactIsSimultaneous: assumes positive ids and fewer than 2^32 - 1 rows, as the id columns and generators guarantee.
- Unknown time and repetition of calendar events and the UPDATED bit, which are neither stored nor read back; calendar mail and alerts.
- The map coordinates behind an area of cells (float arithmetic); the rectangle of cells is the input, and the shift of the octagon is an exact rational.
- Whether the octagon covers the search disc, or contains the standing cell near a map border: the code only approximates this.
- MapConverter.ConvertADT: assumes at least one shown liquid cell where liquid is present, and exact reals for floats.
- Reading ADT chunks, which holes the reader skips over, and interpolation between height points.
- Arena ratings, account caches, channels, bags, cameras, creature AI, movement and corpses.
