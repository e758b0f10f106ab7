# A verified model of the DFHack agent plugin

The plugin lets an outside agent observe and steer a running Dwarf Fortress: it streams tiles and
announcements over a socket, executes commands (dig, burrow, manager order, trade, removal), lets
time pass in steps, and condenses combat, emotions and art into summaries. This project models the
parts of it that keep state between calls or fold it in loops, and proves what those parts promise
over every input, every order of iteration and every run. Dwarf Fortress and DFHack are the
environment: they append reports, bump repeat counts, change tiles, advance frames and dispatch jobs.

## Layout

| file | what it models |
|---|---|
| `Engagements.dfy` | the partition of combat records into engagements, as one small function |
| `EngagementBuilder.dfy` | the online union-find that computes it, with path halving and an arbitrary merge order |
| `CombatIngest.dfy` | the combat roster, continuation stitching and the capped report buffer |
| `ArtScan.dfy` | the incremental scan of the history for art |
| `StoryPulse.dfy` | the emotion cursor, its ranking, cap and counters |
| `StairShaft.dfy` | what a dig over a box means tile by tile, and how stair shafts compose and connect |
| `DigDesignation.dfy` | the dig and cancel loops, proved to compute that meaning |
| `AnnouncementFeed.dfy` | the delivery protocol: id cursor, repeat map, tail window and cap |
| `AnnouncementCodec.dfy` | the announcement message, encoded and decoded |
| `TurnProtocol.dfy` | steps, pauses and the tripwire, with the poll that re-enters itself |
| `PluginRuns.dfy` | whole runs of the plugin, as runs of the delivery protocol |
| `Framing.dfy` | reassembling frames from a byte stream |
| `TileReplication.dfy` | packed keys, the delta stream, the full state and a peer that replays them |
| `WorkOrders.dfy` | manager orders: create, edit, cancel, and what the game does in between |
| `Removal.dfy` | naming a building by a tile, and finding a tile that names it alone |
| `TradeGoods.dfy` | staging goods for a trade depot and releasing them |
| `BurrowTiles.dfy`, `Burrows.dfy` | tile bit masks, burrow commands and the civilian alert |
| `Bytes.dfy` | fixed-width integers, their narrowing casts and big-endian encoding |
| `Bits.dfy` | shifts and bitwise or on naturals |
| `Logs.dfy` | id-ordered logs read from a cursor on, shared by the combat and art scans |
| `Sequences.dfy`, `Options.dfy` | enumerations without repeats, selections, removing a first occurrence; optional values |

State that the source updates in place is a class whose methods run the source's own loops; each is
proved against a function of the old state, and the lemmas are about that function.

## Where the code and its own comments disagree

The model follows the code. In each case the exact condition under which the comment is right is proved.

- `buildEngagements` says two records land together if and only if they share a unit and lie within the
  window. The "if" half holds (`SharedUnitWithinWindowIsTogether`). The "only if" half, even read as a chain of
  such pairs, holds exactly when every record is linked by a chain to the last record of each engagement it
  takes over (`OnlyIfHalfExactly`); it does when every unit's previous mention is itself within the window
  (`OnlyIfHalfWhenMentionsAreWithin`), and three records show that it can fail (`OnlyIfHalfFails`).
- In a negative game year the first stamp of an engagement is its last one (`FirstStampExactly`).
- `trip_step_tripwire` says its nested poll finds nothing new. It finds something exactly when more than 64
  entries were waiting (`NestedPollFindsNothingExactly`, `TripSendsTwiceExactly`); the recursion ends because the step target was already exchanged.
- A full state does not go through the tile cache and nothing calls `clear_tile_cache`, so a tile that changes
  and changes back around a full state stays wrong at the peer (`DeltaAfterFullState`, `FullStateCanGoStale`; over
  whole runs `StaleExactly`).
- The story-pulse cursor falls back when the largest stamp in sight is smaller than before. A covered feeling is
  then reported again exactly when it is past the new floor and the newest of its key in the later call
  (`CoveredIsReportedAgainExactly`, `FallingBehindReportsTwice`). The remembered map is empty at every call boundary
  except while no call has seen a real year and one has seen a residue (`RememberedOverRuns`).
- Art composed before the site can be resolved is never counted (`EventsBeforeTheSiteAreLost`); the scan still
  equals the full fold exactly when every such work is composed there again later (`LateSiteEqualsFullFoldExactly`).
- A shaft dug in two pieces is not always one dig: raising fails exactly over an unallocated tile or a carved
  down-stair with nothing pending, deepening exactly under an unallocated tile (`RaisingComposes`,
  `DeepeningComposes`, `DeepeningCanFail`, and `PiecesComposeExactly` for any order of pieces). The rejection of a dig
  that designates nothing cannot happen (`SomethingCounted`).
- A dig accepts its levels in either order, a cancel of the same corners does not (`SameCornersExactly`).
- `applyBringGoodsToDepot` says it stops once the cap would be exceeded. It skips that item and goes on, which is
  the same exactly when nothing wanted after the first overflow still fits (`SkippingIsStoppingExactly`). What is
  carried stays under every cap exactly when no wanted container that is not taken whole holds anything of value
  (`CapHoldsExactly`, `OpaqueBinPassesTheCap`).
- `applyUnmarkTradeGoods` with the same filter does not release bins taken whole for their contents
  (`UnmarkUndoesExactly`), and it spares merchant stock exactly when no matching pending job carries any
  (`MerchantStockIsSafeExactly`).
- The advice to remove an overlapping building first can be followed exactly for the buildings outside every stuck
  group, one whose members shadow each other tile by tile (`SurvivesExactly`, `StuckOutlivesEveryRun`); two stockpiles
  of one shape are the smallest such group (`TwinsOutliveEveryRun`).
- An edit of an order removes it when its 16-bit remainder is not positive, which is "already done" exactly while the
  difference does not wrap (`RemovesWhatIsDoneExactly`).
- Clearing the alert for a burrow does not silence it again if it had been silenced with other members
  (`ClearUndoesSetExactly`). An order whose material or subtype is refused still uses up an id (`Manager.ApplyWorkOrder`).

## Model

| member | source | states |
|---|---|---|
| EngagementBuilder.BuildEngagements | dfhack-plugin/narrative.cpp:1059-1130 | for every record sequence and every iteration order, the engagements are exactly the blocks of the abstract partition, disjoint, covering every record, with exact ids, stamps and units |
| EngagementBuilder.Forest.Find | dfhack-plugin/narrative.cpp:1038-1041 | root lookup with path halving ends although parents point both ways, and moves no root |
| EngagementBuilder.Forest.Link | dfhack-plugin/narrative.cpp:1092-1108 | linking one root under another changes the root of exactly the elements under it |
| EngagementBuilder.TouchedRoots | dfhack-plugin/narrative.cpp:1066-1076 | the roots the next record joins; every root met has records, so the defensive skip is dead |
| EngagementBuilder.MergeTouched | dfhack-plugin/narrative.cpp:1083-1110 | whatever touched root is chosen as target, the others are folded into it and into nothing else |
| EngagementBuilder.AdmitRecord | dfhack-plugin/narrative.cpp:1064-1123 | one turn of the loop takes the forest from the partition of the first records to that of one record more |
| EngagementBuilder.TouchedByLabel | dfhack-plugin/narrative.cpp:1066-1076 | a root is touched exactly when a unit's latest record lies in its engagement and that engagement's last record is within the window |
| EngagementBuilder.BlockGapsBounded | dfhack-plugin/narrative.cpp:1072-1075 | sorted by time, consecutive records of an engagement are at most 500 ticks apart, however it was merged |
| EngagementBuilder.FirstStampExactly | dfhack-plugin/narrative.cpp:1112-1116 | the first stamp is the earliest exactly when the year is not negative or all stamps agree |
| EngagementBuilder.NegativeYearLosesFirstStamp | dfhack-plugin/narrative.cpp:1112-1116 | an engagement of year -1 whose first stamp is reported as its last |
| Engagements.OneYearLatestStamp | dfhack-plugin/narrative.cpp:1072-1075 | an engagement never leaves one game year and its label carries its latest stamp |
| Engagements.TogetherIsKept | dfhack-plugin/narrative.cpp:1050-1053 | records once together stay together as more arrive |
| Engagements.SharedUnitWithinWindowIsTogether | dfhack-plugin/narrative.cpp:1050-1053 | in time order, records that share a unit within the window end up together |
| Engagements.OnlyIfHalfExactly | dfhack-plugin/narrative.cpp:1050-1053 | every two records together are joined by a chain of documented pairs exactly when each record is so joined to the last record of every engagement it takes over |
| Engagements.OnlyIfHalfWhenMentionsAreWithin | dfhack-plugin/narrative.cpp:1050-1053 | they are when every unit's previous mention lies within the window of its next |
| Engagements.OnlyIfHalfFails | dfhack-plugin/narrative.cpp:1050-1053 | three records in time order end up together although no chain of documented pairs joins them |
| CombatIngest.TailScanIsFilterExactly | dfhack-plugin/narrative.cpp:905-922 | the backward tail scan of a log equals filtering all of it exactly when the log is split at the cursor |
| CombatIngest.TailRosterIsFull | dfhack-plugin/narrative.cpp:905-922 | over logs split at the cursor, a roster read from the tails says of every new id what the full logs say |
| CombatIngest.BuildCombatRoster | dfhack-plugin/narrative.cpp:905-922 | for any unit logs, the roster is exactly what the entries from the end back to the first old one say |
| CombatIngest.SplitPassExactly | dfhack-plugin/narrative.cpp:949-982 | two passes, each with the roster of its time, keep the records of one exactly when the second has no leading continuation text or nothing is open to receive it |
| CombatIngest.CombatLog.IngestCombatReports | dfhack-plugin/narrative.cpp:934-990 | cursor and buffer after a pass, for any unit logs and wherever the binary search lands |
| CombatIngest.TwoPassesEqualOne | dfhack-plugin/narrative.cpp:934-990 | a pass over a prefix, then one over the whole log after the unit logs have grown, leave the state of one late pass |
| CombatIngest.PassesEqualOne | dfhack-plugin/narrative.cpp:934-990 | any number of passes while the unit logs grow, none beginning with a continuation and each knowing of the lines it read what the last knows, give one pass's cursor and rolling 400 records |
| ArtScan.ArtLog.ScanArtHistoryEvents | dfhack-plugin/narrative.cpp:2220-2271 | cursor and the four composed tables after one scan |
| ArtScan.PassesEqualOne | dfhack-plugin/narrative.cpp:2220-2262 | any number of scans of a growing history with one site equals one scan |
| ArtScan.IncrementalEqualsFullFoldExactly | dfhack-plugin/narrative.cpp:2220-2262 | the incremental scan equals a full fold exactly when the site is resolvable or nothing was composed there |
| ArtScan.EventsBeforeTheSiteAreLost | dfhack-plugin/narrative.cpp:2236-2240 | what was composed before the site could be resolved stays missing |
| ArtScan.LateSiteEqualsFullFoldExactly | dfhack-plugin/narrative.cpp:2236-2240 | a scan that resolves the site late equals the full fold exactly when every work composed there before is composed there again |
| StoryPulse.Pulse.HandleStoryPulse | dfhack-plugin/narrative.cpp:1668-1848 | the new cursor and map; the shown list is a top list of the eligible candidates; shown, below threshold and capped add up to the total |
| StoryPulse.MoreSalientIsStrictWeakOrder | dfhack-plugin/narrative.cpp:1647-1656 | the ranking is a strict weak order, as std::sort needs |
| StoryPulse.RememberedIsEmptyExactly | dfhack-plugin/narrative.cpp:1751-1776 | from any call boundary, the map is empty after a call exactly when the cursor is set, the call saw a real year, or nothing was and is left over |
| StoryPulse.RememberedOverRuns | dfhack-plugin/narrative.cpp:1751-1776 | over any run of calls from the start, the map is non-empty exactly while no call has seen a real year and one has left a residue |
| StoryPulse.NothingIsSkipped | dfhack-plugin/narrative.cpp:1704-1753 | every emotion past the floor and past what is remembered of its key, or a later one of its key, is reported |
| StoryPulse.ReportedExactly | dfhack-plugin/narrative.cpp:1704-1753 | from any remembered map, an emotion is a candidate exactly when it is past the floor, past what is remembered of its key, and no earlier one of its key in the call is at least as recent |
| StoryPulse.NothingIsReportedTwice | dfhack-plugin/narrative.cpp:1713-1776 | while no call moves the cursor back, no feeling with its stamp is a candidate twice over any run of calls, whatever years they see |
| StoryPulse.CoveredIsReportedAgainExactly | dfhack-plugin/narrative.cpp:1763-1776 | after any call, a covered emotion is reported by an arbitrary later call exactly when it is past the new floor and the newest of its key there |
| StoryPulse.FallingBehindReportsTwice | dfhack-plugin/narrative.cpp:1763-1766 | three calls that report one feeling twice |
| StairShaft.DeepeningComposes | dfhack-plugin/designations.cpp:312-446 | on any map, digging [b..c] and then [a..b] leaves the map of one dig over [a..c] exactly when no tile dug at level b lies under an unallocated tile that is no carved up-stair |
| StairShaft.DeepeningCanFail | dfhack-plugin/designations.cpp:312-446 | a map on which it does not |
| StairShaft.RaisingComposes | dfhack-plugin/designations.cpp:312-446 | on any map, digging [a..b] and then [b..c] does so exactly when no tile dug at level b lies over an unallocated tile or a carved down-stair with nothing pending |
| StairShaft.PiecesComposeExactly | dfhack-plugin/designations.cpp:312-446 | a shaft dug in adjacent pieces, in any order, is one dig exactly when every joint meets the condition of its direction |
| StairShaft.PiecesFromTheTopCompose | dfhack-plugin/designations.cpp:312-446 | so a shaft dug downward under allocated tiles, in any number of pieces, is one dig |
| StairShaft.ShaftIsIdempotent | dfhack-plugin/designations.cpp:312-446 | on any map, a repeated shaft dig changes nothing |
| StairShaft.ShaftConnects | dfhack-plugin/designations.cpp:318-446 | every step up between allocated tiles of the range connects, except exactly off a carved down-stair with nothing pending |
| StairShaft.FreshEndsAreJoined | dfhack-plugin/designations.cpp:95-156 | a fresh top or bottom is joined to every allocated stair the continuation checks recognise |
| StairShaft.DigFrame | dfhack-plugin/designations.cpp:318-446 | only the box and carved up-stairs directly above fresh tops change, and no carved down or up/down stair is overwritten by a stair dig |
| DigDesignation.Map.ApplyDigDesignation | dfhack-plugin/designations.cpp:219-537 | the loops compute the tile-by-tile meaning, the counters and the lost-stairs flag, for every payload |
| DigDesignation.BoxRunIsResult | dfhack-plugin/designations.cpp:318-446 | a loop that reads the map it is writing leaves what every tile alone decides from the map before |
| DigDesignation.DigCountsItsVolume | dfhack-plugin/designations.cpp:318-446 | designated, skipped and promoted add up to the volume plus the promotions above the box |
| DigDesignation.SomethingCounted | dfhack-plugin/designations.cpp:518-537 | a valid dig always counts a tile, and it loses stairs exactly when a plain dig covers a carved stair |
| DigDesignation.Map.ApplyCancelDesignation | dfhack-plugin/designations.cpp:834-935 | exactly the box is cleared, dig and smooth marks alike, with the number of each; nothing cleared is a failure |
| DigDesignation.CancelUndoesDig | dfhack-plugin/designations.cpp:876-911 | on any map, a cancel of the same box undoes a dig exactly when nothing was pending there and no allocated stair above was pulled in |
| DigDesignation.SameCornersExactly | dfhack-plugin/designations.cpp:855-863 | the corners of an accepted dig are accepted by a cancel exactly when they come bottom level first |
| AnnouncementFeed.EveryRunIsSafe | dfhack-plugin/announcements.cpp:276-423 | over every run of appends, bumps, polls and resets: all reports up to the cursor have been handed over, the map holds exactly the last count sent, and it stays within 264 entries |
| AnnouncementFeed.PollDelivers | dfhack-plugin/announcements.cpp:372-397 | after a poll, capped or not, everything at or below the cursor has been handed to the socket |
| AnnouncementFeed.PollGrowsCounts | dfhack-plugin/announcements.cpp:326-339 | an id is sent again only with a larger count |
| AnnouncementFeed.BatchIsDue | dfhack-plugin/announcements.cpp:306-339 | a message holds only new or bumped reports, no id twice, at most 64 |
| AnnouncementFeed.CursorSkipsNothing | dfhack-plugin/announcements.cpp:379-387 | the cursor never passes a report that is not in the batch |
| AnnouncementFeed.PollKeepsMapExact | dfhack-plugin/announcements.cpp:345-396 | the repeat map holds exactly the last count sent of each id it retains |
| AnnouncementFeed.PollKeepsMapBounded | dfhack-plugin/announcements.cpp:345-396 | the repeat map never exceeds the tail window plus one message |
| AnnouncementFeed.PollTakesTheFront | dfhack-plugin/announcements.cpp:306-396 | a poll takes the front of the queue and leaves the rest, in order, for the next |
| AnnouncementFeed.QueueDrains | dfhack-plugin/announcements.cpp:306-396 | in a quiet world n polls hand over exactly the first 64 n entries of the queue, in order, and leave the rest |
| AnnouncementFeed.EnoughPollsCatchUp | dfhack-plugin/announcements.cpp:306-396 | in a quiet world enough online polls deliver every report and every current count in the window |
| AnnouncementFeed.EmptyQueueIsCaughtUp | dfhack-plugin/announcements.cpp:306-396 | an empty queue means every report, and every current count in the window, has been sent |
| AnnouncementFeed.BumpOutsideWindowIsUnseen | dfhack-plugin/announcements.cpp:325-334 | a bump outside the last 200 slots is never noticed |
| AnnouncementFeed.NestedPollFindsNothingExactly | dfhack-plugin/df_ai_protocol.cpp:780-786 | the poll nested in a trip finds nothing exactly when at most 64 entries were waiting, and otherwise finds just the ones past the cap |
| AnnouncementFeed.ColdFloodLeavesWork | dfhack-plugin/df_ai_protocol.cpp:780-786 | from a cold start, more reports than a message holds leave work for the next poll |
| AnnouncementFeed.CappedPollLeavesWork | dfhack-plugin/df_ai_protocol.cpp:780-786 | 65 critical reports leave one for the poll nested in the trip |
| AnnouncementCodec.EncodeUpdate | dfhack-plugin/announcements.cpp:196-268 | the message of a batch: its length header is its byte count and its payload decodes to the batch |
| AnnouncementCodec.UpdateRoundTrip | dfhack-plugin/protocol.h:21-31 | ids, types, clamped positions, clamped text and counts survive encoding, for every batch |
| AnnouncementCodec.OldUpdateRoundTrip | dfhack-plugin/protocol.h:21-31 | a message without the trailing block decodes to the same entries with count 0 |
| AnnouncementCodec.FormatsDiffer | dfhack-plugin/protocol.h:21-31 | no new-format payload is an old-format payload of any batch, except the empty one of the empty one |
| TurnProtocol.EveryRunIsSound | dfhack-plugin/df_ai_protocol.cpp:763-815 | in every reachable state the tripwire and a live target never coexist, the latest step is unclaimed exactly while its target is live, and the flag is up exactly when it was claimed by a trip |
| TurnProtocol.EachStepEndsOnce | dfhack-plugin/df_ai_protocol.cpp:787-791 | over any run and continuation, claims stand and no step's end is claimed twice |
| TurnProtocol.OvertakenIsNeverClaimed | dfhack-plugin/df_ai_protocol.cpp:1075-1105 | a step overtaken by another while its target is live is never claimed |
| TurnProtocol.ClaimGoesWithReasonAndMessage | dfhack-plugin/df_ai_protocol.cpp:787-815 | a critical poll that finds a live target adds one claim, its own text as the reason, the flag and one nested refresh; any other poll adds none of them |
| TurnProtocol.TripSendsTwiceExactly | dfhack-plugin/df_ai_protocol.cpp:780-815 | a trip over an online connection sends the front of the queue and the front of the rest, two messages exactly when more than 64 entries were waiting |
| TurnProtocol.DrainLeavesNoDueTarget | dfhack-plugin/df_ai_protocol.cpp:1726-1759 | after every drain the target is -1 or ahead of the frame counter |
| TurnProtocol.Plugin.PollAndSend | dfhack-plugin/announcements.cpp:276-397 | cursor, map, messages, reason and step machine after a poll, including the one nested poll a trip makes; the recursion ends |
| TurnProtocol.Plugin.TripStepTripwire | dfhack-plugin/df_ai_protocol.cpp:787-815 | only the poll that claims a live target pauses, records the reason and refreshes |
| TurnProtocol.Plugin.PushStateRefresh | dfhack-plugin/df_ai_protocol.cpp:724-753 | a refresh polls once when connected and leaves the step machine alone |
| TurnProtocol.Plugin.ExecuteCommand | dfhack-plugin/df_ai_protocol.cpp:1075-1105 | pause, unpause and step as transitions of the step machine |
| TurnProtocol.Plugin.DrainPendingWork | dfhack-plugin/df_ai_protocol.cpp:1726-1759 | every queued command in order, then the auto-repause |
| PluginRuns.RunIsFeedRun | dfhack-plugin/df_ai_protocol.cpp:724-815 | every run of the plugin, nested polls and refreshes included, is a run of the delivery protocol, and its messages together are what that run delivered |
| PluginRuns.EveryPluginRunIsSafe | dfhack-plugin/announcements.cpp:276-423 | so every run of the plugin delivers safely, with exact counts and a bounded map |
| PluginRuns.EveryPluginRunIsWellTold | dfhack-plugin/df_ai_protocol.cpp:763-815 | over every run of the plugin the step machine stays sound, and a reason is on record exactly while the latest step was tripped |
| PluginRuns.EachPluginStepEndsOnce | dfhack-plugin/df_ai_protocol.cpp:787-791 | over any run of the plugin and continuation, claims stand and no step's end is claimed twice |
| Framing.Socket.ReadExact | dfhack-plugin/df_ai_protocol.cpp:2775-2795 | however the bytes arrive, exactly the next n of them fill the buffer |
| Framing.Socket.ReceiveMessage | dfhack-plugin/df_ai_protocol.cpp:2437-2472 | one valid frame is taken off the stream, or the call fails |
| Framing.ReceiveAll | dfhack-plugin/df_ai_protocol.cpp:2437-2472 | frames sent back to back are received exactly, whatever the chunks, and exactly their bytes are consumed |
| Framing.ReceivedFrameIsPrefix | dfhack-plugin/df_ai_protocol.cpp:2437-2472 | only the bytes of a valid frame are ever taken for one |
| TileReplication.Extractor.DetectTileChanges | dfhack-plugin/tile_updates.cpp:58-115 | the bytes are the encoding of exactly the changed tiles, and the cache is current on the whole map |
| TileReplication.Extractor.ExtractFullMapState | dfhack-plugin/tile_extractor.cpp:319-401 | the bytes are every tile; the cache is not touched |
| TileReplication.EveryPassAgrees | dfhack-plugin/tile_updates.cpp:58-115 | from an empty cache, a peer that replays every delta agrees with the map after each pass |
| TileReplication.DeltaBetweenPassesExactly | dfhack-plugin/tile_updates.cpp:58-115 | whatever the cache was, the delta after a pass holds exactly the tiles whose type or flags changed since that pass |
| TileReplication.DeltaRepairsExactly | dfhack-plugin/tile_updates.cpp:58-115 | after one delta a tile is right exactly when it had changed or was right before, for any cache and peer |
| TileReplication.DeltaAfterFullState | dfhack-plugin/tile_extractor.cpp:319-401 | after a full state the next delta repairs all but exactly the tiles back at their cached state |
| TileReplication.CachedExactly | dfhack-plugin/tile_updates.cpp:58-121 | the cache knows a tile as x exactly when some delta, and every one since, found it so, with no clearing in between |
| TileReplication.StaleExactly | dfhack-plugin/tile_extractor.cpp:319-401 | over any run at all, a tile is wrong after a delta exactly when the last full state showed it as something else, between deltas that from before it up to this one all found it as it is now, the cache not cleared in between |
| TileReplication.FullStateCanGoStale | dfhack-plugin/tile_extractor.cpp:319-401 | a tile changed and changed back around a full state stays wrong |
| TileReplication.Extractor.ClearTileCache | dfhack-plugin/tile_updates.cpp:117-121 | the cache is empty and nothing else changed, as the clearing in a run |
| TileReplication.ClearedCacheRepairsAll | dfhack-plugin/tile_updates.cpp:117-121 | clearing the cache makes the next delta repair everything |
| TileReplication.KeyIsInjective | dfhack-plugin/tile_updates.cpp:29-32 | tiles whose rows and levels fit 16 bits have different packed keys, whatever the column |
| TileReplication.KeysDistinguishExactly | dfhack-plugin/tile_updates.cpp:29-32 | the shifted and or-ed key tells every two tiles of a map apart exactly when it has at most 0x10000 levels, and at most 0x10000 rows or a single column |
| TileReplication.StateIsInjective | dfhack-plugin/tile_updates.cpp:24-27 | the packed state tells every two (type, flags) apart |
| TileReplication.EncodeRoundTrip | dfhack-plugin/tile_updates.cpp:100-105 | a tile stream decodes to its updates |
| TileReplication.ClassesExclude | dfhack-plugin/tile_extractor.cpp:178-314 | wall, floor and void exclude each other, and a built bridge alone decides its tile |
| WorkOrders.Manager.ApplyWorkOrder | dfhack-plugin/work_orders.cpp:269-396 | an order is appended with a fresh id; a refused material or subtype only burns the id |
| WorkOrders.Manager.ApplyCancelOrder | dfhack-plugin/work_orders.cpp:1656-1727 | jobs, order and dependencies after a cancel, with the number of dependencies cleared |
| WorkOrders.Manager.ApplyEditOrder | dfhack-plugin/work_orders.cpp:1756-1812 | amounts, frequency and checkpoints after an edit, and whether it removed the order |
| WorkOrders.ManagerOrder.ClearDependencies | dfhack-plugin/work_orders.cpp:1710-1719 | the backward erase drops exactly the conditions on the dead id |
| WorkOrders.CancelRemovesOnlyThatOrder | dfhack-plugin/work_orders.cpp:1656-1727 | every other order keeps its place and its fields; any selection of conditions, or of jobs, that do not name the order is the same before and after, in order |
| WorkOrders.ProgressKeptExactly | dfhack-plugin/work_orders.cpp:1778-1782 | an edit keeps total minus left exactly when both fields wrap alike in 16 bits |
| WorkOrders.EditRemovesExactly | dfhack-plugin/work_orders.cpp:1778-1809 | for every order and amount, an edit that leaves nothing to do is a cancel, and any other changes only that order, to the stated amounts |
| WorkOrders.RemovesWhatIsDoneExactly | dfhack-plugin/work_orders.cpp:1778-1809 | the orders so removed are those whose amount is already done exactly when the difference survives 16 bits |
| WorkOrders.LastEditWins | dfhack-plugin/work_orders.cpp:1756-1812 | for every order, two amount edits equal the second alone unless exactly the first removes the order |
| WorkOrders.EveryRunIsSound | dfhack-plugin/work_orders.cpp:332-396 | over every run, for orders of any amount, ids stay distinct and below the counter, and no condition or job names an order that is gone |
| WorkOrders.EveryRunKeepsGood | dfhack-plugin/work_orders.cpp:1778-1812 | orders that start with 1 to 100 in all and no more than that left stay so over every run |
| WorkOrders.DeadIdStaysDead | dfhack-plugin/work_orders.cpp:1656-1727 | an id that is gone never returns, and no job and no condition names it again |
| Removal.Fort.FindUnambiguousTileFor | dfhack-plugin/df_ai_protocol.cpp:505-524 | the first tile of the footprint that names the building alone, or none because there is none |
| Removal.Fort.ApplyRemoveBuilding | dfhack-plugin/df_ai_protocol.cpp:526-596 | every reply and the world after it, with a correct hint for each candidate of an ambiguous tile |
| Removal.HoistedListIsEnough | dfhack-plugin/df_ai_protocol.cpp:434-466 | filtering one level's stockpiles gives what a world scan at each tile would |
| Removal.ReissuingHits | dfhack-plugin/df_ai_protocol.cpp:551-596 | reissuing at a hinted tile takes down exactly that building |
| Removal.HintedExactly | dfhack-plugin/df_ai_protocol.cpp:505-524 | a building is given a tile exactly when some position on the map means it alone |
| Removal.NamesAloneExactly | dfhack-plugin/df_ai_protocol.cpp:445-466 | a tile names a building alone exactly when it covers the tile and nothing else does |
| Removal.StuckOutlivesEveryRun | dfhack-plugin/df_ai_protocol.cpp:561-587 | no run of the command takes a member out of a group in which every tile of a member is covered by another |
| Removal.SurvivesExactly | dfhack-plugin/df_ai_protocol.cpp:561-587 | a building survives every command sequence exactly when some stuck group contains it |
| Removal.TwinsOutliveEveryRun | dfhack-plugin/df_ai_protocol.cpp:561-587 | two stockpiles of one shape are such a group |
| TradeGoods.Depot.ApplyBringGoods | dfhack-plugin/trade.cpp:137-277 | jobs, flags and totals after a staging, first come first served under the count and the cap |
| TradeGoods.StagingKeepsLimits | dfhack-plugin/trade.cpp:180-260 | the count limit and a positive cap are kept, and the total is the sum of the marked values |
| TradeGoods.StagingIsMaximal | dfhack-plugin/trade.cpp:180-260 | with no negative values, if the count was not the limit, everything left behind would overflow the cap |
| TradeGoods.NeverBoth | dfhack-plugin/trade.cpp:187-232 | at every depot whose containers' contents are in inventory, a container and something inside it are never both hauled |
| TradeGoods.StagingKeepsNested | dfhack-plugin/trade.cpp:187-232 | a staging keeps that: contents stay in inventory and no job hauls them |
| TradeGoods.FewerJobsStayNested | dfhack-plugin/trade.cpp:348-385 | and so does an unmark |
| TradeGoods.CapHoldsExactly | dfhack-plugin/trade.cpp:193-260 | with positive values, what is carried stays under every count and cap exactly when no wanted container that is not taken whole has contents of value |
| TradeGoods.OpaqueBinPassesTheCap | dfhack-plugin/trade.cpp:234-260 | without a class a full bin passes a cap that its contents exceed |
| TradeGoods.SkippingIsStoppingExactly | dfhack-plugin/trade.cpp:234-260 | skipping what overflows equals stopping at the first overflow exactly when nothing offered after it still fits |
| TradeGoods.TwoCommandsAreOne | dfhack-plugin/trade.cpp:180-260 | without a cap, two commands mark what one with the summed limit would, in the same order |
| TradeGoods.CommandsAddUp | dfhack-plugin/trade.cpp:180-260 | the same over the depot's own items, with the flags the first command left |
| TradeGoods.Depot.ApplyUnmark | dfhack-plugin/trade.cpp:303-394 | the jobs kept and the staged items released, under one limit |
| TradeGoods.UnmarkKeepsLimits | dfhack-plugin/trade.cpp:348-385 | no more than the limit is let go; nothing released and no single-item job cancelled is merchant stock |
| TradeGoods.MerchantStockIsSafeExactly | dfhack-plugin/trade.cpp:348-385 | no limit ever cancels a job carrying merchant stock exactly when no matching pending job carries any; what is released never is |
| TradeGoods.UnmarkUndoesExactly | dfhack-plugin/trade.cpp:279-385 | unmarking with the same filter undoes a staging exactly when every bin taken whole matches the filter itself |
| BurrowTiles.TotalIsSize | dfhack-plugin/burrows.cpp:278-295 | the bit count is the number of assigned tiles |
| BurrowTiles.PaintingAddsExactly | dfhack-plugin/burrows.cpp:95-108 | painting adds exactly the unassigned tiles of the box, and the bit count rises by their number |
| BurrowTiles.PaintingAgainAddsNothing | dfhack-plugin/burrows.cpp:95-108 | painting a box again adds nothing |
| Burrows.Burrow.PaintBox | dfhack-plugin/burrows.cpp:95-108 | the loops assign the box and no other tile; painted and already-in add up to the volume |
| Burrows.Burrow.CountBurrowTiles | dfhack-plugin/burrows.cpp:278-295 | the shifting loop counts the burrow's tiles |
| Burrows.Plot.ApplyDesignateBurrow | dfhack-plugin/burrows.cpp:60-113 | the named burrow grows by the box, or a new one with a fresh id does; bad requests change nothing |
| Burrows.Plot.ApplyRemoveBurrow | dfhack-plugin/burrows.cpp:122-153 | the burrow is gone and out of the alert, which falls silent with its last member |
| Burrows.Plot.ApplySetAlert | dfhack-plugin/burrows.cpp:205-271 | members and alert index after sounding or clearing, bootstrapping the alert list |
| Burrows.LowerBound | dfhack-plugin/burrows.cpp:137-139 | the first place in a sorted list not below an id |
| Burrows.EveryRunIsConsistent | dfhack-plugin/burrows.cpp:60-271 | over every run the members stay strictly sorted and live, ids stay distinct, and an alert in force has a member |
| Burrows.RemovedIsForgotten | dfhack-plugin/burrows.cpp:122-153 | over every run after a removal, the burrow's id is live nowhere, in no alert, and below the id counter |
| Burrows.ClearUndoesSetExactly | dfhack-plugin/burrows.cpp:236-271 | for any alert list, clearing undoes setting, up to bootstrapping the list, exactly when the burrow was no member and the alert was in force or empty |

## Left out

- Sockets, threads, mutexes, exception barriers and console output: "sent" means handed to the socket, and the two drain contexts are serialised steps.
- Null entries in the game's vectors are skipped by the source; here every entry is a value.
- The ids, clocks and counters the game hands out are unbounded integers, except where a field is narrowed on purpose (order amounts, wire fields, tile keys).
- Framing.Socket.ReceiveMessage: after a failed read the bytes already taken are lost, so a later success is only promised to be a frame of what is left.
- TurnProtocol.Plugin.PollAndSend: which text a dangerous-wildlife sighting trips on is the environment's choice; a critical report's text takes precedence.
- TurnProtocol.Plugin.PushStateRefresh: tiles and entities sent in the same refresh are not part of its state; tile deltas are modelled in TileReplication.
- classify_severity and the other enum-to-byte tables: a report carries its severity.
- Wound watermarks, telling lines, portraits, social graph and JSON rendering.
- `std::sort` in the story pulse is a stand-in with the same promise; ties come out in an order of its own.
- The unused six-integer overload of applyCancelDesignation in df_ai_protocol.cpp.
- MapCache::WriteAll failing, and the notes on building footprints in dig replies.
- The map cache is library code: in a block that is not allocated it is taken to read as nothing pending and to drop writes.
- Burrows.Burrow.PaintTile: the tile is assigned; the source counts it as painted even where the library could not set it, for instance in a block that is not allocated.
- TileReplication.EncodeRoundTrip: for maps of at most 0x8000 tiles a side, beyond which the 16-bit coordinates on the wire collide.
- Job::removeJob's effect on the hauled item's own flags, and every other effect of foreign calls (Items::markForTrade, Buildings::deconstruct) beyond the one named in the model.
- Removal.Fort.FindUnambiguousTileFor: buildings lie on a map of at most 0x7FFF tiles a side; at the last 16-bit coordinate the source's loops would not end.
- TradeGoods.UnmarkKeepsLimits: for cancelled jobs, speaks of those with one item, as markForTrade makes them; when a job with several items is safe is MerchantStockIsSafeExactly.
- The game completing and deleting orders by itself, and alerts other than the civilian one.
- Substring and material matching of the trade filter, walkability and findAtTile are parameters.
- Burrow unit assignment, zones, buildings, military, nobles, plants, mechanisms, the query handlers and the Go codec.
