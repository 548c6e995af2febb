# CME gateway: a verified model

The gateway reads the MDP 3.0 market data of CME from redundant multicast feeds and
speaks iLink 3 for order entry. This project models the parts of it that carry state from
one message to the next and proves, for every input and every run, what they promise.

The model follows the form of the program. What the program updates in place is a class
with the same fields (`Channel`, `Incremental`, `Security`, `Snapshot`, `Shared`,
`Handler`, `Cache`, `Receiver`, `Session`, `SecurityDefinitions`), its loops are loops with
invariants, and each method is proved against a function or relation on values. The
theorems are lemmas about those functions and relations.

| module | subject |
|---|---|
| `Bytes`, `PacketFrame`, `PacketSplitter` | little-endian integers, the packet header, the walk over the messages of a packet |
| `FeedArbitration` | the A and B feeds of a channel merged into one in-order stream through a bounded hold buffer |
| `HoldBuffer`, `BufferOverflow` | when slots of the hold buffer are given back, and how it overflows although nothing is lost |
| `ChunkAssembly`, `Recovery`, `RecoverySafety`, `RecoveryFlags` | assembly of chunked snapshots, gap detection, the resubscribe flags, and what holds of them in every run |
| `OrderSnapshots` | order book recovery: chunks against gaps, and chunks of one snapshot |
| `ChannelSafety` | arbitration and recovery together, from packets to the recovery log |
| `TradeSummary`, `TradeSummaryLaws`, `TradeSlots` | reassembly of match events and their publication per security |
| `Grouping`, `RefreshBook`, `RefreshBookLaws`, `RefreshBookOutputs` | book refresh regrouped by security, with order entries that point back at levels |
| `OrderBookBatch`, `OrderBookBatchLaws` | order updates held back until the end of the event |
| `StreamFraming`, `OutboundNumbering`, `RequestId` | order entry: framing, sequence numbers, request ids |
| `SecurityIndex`, `SecurityLookups`, `SecdefReader` | the three-map security index, what it finds, and the definitions file |
| `Sequences`, `Optional`, `Market` | shared notions |

Conventions: prices are reals, a null field or a NaN price is `None`, integers of fixed
width are either subset types with an explicit successor (`PacketFrame.Next`) or bit
vectors (`RequestId`), and calls to the dispatcher are appended to an output sequence. The
order book sequencers are not part of this model: they are an oracle, a script of
arbitrary callbacks that may end in `BadState`, and the theorems hold for every script.
The reorder buffer is a multiset of at most `depth` slots with duplicate keys allowed.

Some of what one might expect of the code is false of it. In each such case the code is
modelled as it is, the failure is exhibited, and a lemma states exactly when the promise
holds:

- frame number zero doubles as "no window yet" (`ZeroFrameBreaksOrder`); a dispatch keeps
  the stream in order exactly if it does not accept such a frame (`StepKeepsIff`);
- the second copy of a held packet keeps its slot until the next reset (`SwapLeaksSlot`), so
  that the buffer fills up without any packet having been lost (`OverflowFromTheStart`,
  `NothingIsLost`); no slot is lost exactly if no number is put on hold twice
  (`TidyRunIff`);
- a chunk one that announces a total of zero to an idle assembly leaves its orders behind
  for the next snapshot (`ZeroTotalLeaks`); an offer keeps the assembly in order exactly if
  it is not such a chunk (`OfferKeepsIff`);
- a single-chunk order book snapshot does not reset the assembly, so the next single-chunk
  one never reaches the sequencer (`SingleChunkRecoveryWorksOnce`); `SnapshotOutcome` says
  what becomes of any snapshot in any state;
- a gap does not drop the chunks that are held (`MixedSnapshotIsOffered`); they stay usable
  exactly if no gap finds older orders held (`CleanRunIff`), and an order book that is
  offered is free of older orders exactly if none of its chunks is older (`OfferIsCleanIff`);
- chunks are not tied to a snapshot (`SnapshotsMixWithoutGap`); `OneSnapshotIff` says when
  an offered order book is of one snapshot;
- order slots that run ahead of the announced counts are lost (`SlotsAheadAreLost`,
  `NothingLeftIff`);
- an aggressor entry without orders of its own trades a slot of another entry
  (`SlotTradesTwice`, `TradesAreTheSlotsIff`);
- a leading run of security id zero is never looked up (`EveryLevelOnceIff`,
  `EveryOrderOnceIff`, `AddedIsShareIff`);
- the reader of the definitions file throws on some texts (`ReadToTheEndIff`), and a field
  without its own separator before the line end runs into the next record (`TwoLinesIff`);
- a failed send uses up a sequence number; numbers and places agree exactly after full
  cycles of failed sends, none at all included (`PlaceOnWireIff`).

## Model

| member | source | states |
|---|---|---|
| `FeedArbitration.Incremental.Dispatch` | src/roq/cme/market_data/incremental.cpp:299-402 | one dispatch on either feed is a `Step`: reset if no slot is free; otherwise receive, hold or drop the packet, then drain every held successor, and stop only when the next number is nowhere in the buffer |
| `FeedArbitration.Incremental.Receive` | src/roq/cme/market_data/incremental.cpp:322-369 | numbers below the filter or below the next one are dropped, numbers above it are held, the next one (or the first ever) is delivered |
| `FeedArbitration.Incremental.Drain` | src/roq/cme/market_data/incremental.cpp:377-393 | the loop ends, having delivered exactly the gap-free run of held successors |
| `FeedArbitration.Channel.UpdateSequenceNumber` | src/roq/cme/market_data/channel.hpp:37-42 | the first delivered number opens the window, every delivered number moves its end |
| `FeedArbitration.Channel.OnSequenceReset` | src/roq/cme/market_data/incremental.cpp:1405-1415 | a reset empties the buffer and the window |
| `FeedArbitration.StepKeeps` | src/roq/cme/market_data/incremental.cpp:299-402 | every dispatch keeps: delivered numbers are `first..last` without a gap, everything delivered arrived, everything that arrived above `last` waits in the buffer, and the next number does not |
| `FeedArbitration.RunKeeps` | src/roq/cme/market_data/incremental.cpp:299-402 | the same after every dispatch of every run, for all interleavings, losses, duplicates and reorderings |
| `FeedArbitration.ArrivalsAreSeen` | src/roq/cme/market_data/incremental.cpp:299-376 | in every run, after every dispatch, what the channel counts as received are the packets that the payloads since the last dispatch with a full buffer bring and that pass the filter, all of them and no others, and the first of them opened the window and was delivered first |
| `FeedArbitration.DeliversMaximalPrefix` | src/roq/cme/market_data/incremental.cpp:331-401 | in every run, after every dispatch, the packets delivered since the last reset are the maximal gap-free prefix, from the first of them on, of the packets that the payloads have brought since then, as read off the payloads themselves; stale duplicates are never delivered |
| `FeedArbitration.InterleavingIrrelevant` | src/roq/cme/market_data/manager.cpp:184-193 | two runs from the start, with any filters and buffers, whose payloads since the reset bring the same packets and the same first number, have delivered the same packets, whatever the order and the duplicates |
| `FeedArbitration.StepIsDeliveries` | src/roq/cme/market_data/channel.hpp:32-42 | a dispatch that does not reset hands over packets each of which has the one number the window allows next |
| `FeedArbitration.StepKeepsIff` | src/roq/cme/market_data/incremental.cpp:331-376 | a dispatch that does not reset keeps the invariant, and with it the order of delivery, if and only if it does not accept a frame numbered zero: the packet is absent, filtered, not zero, or behind an open window that has not come to the last 32-bit number |
| `FeedArbitration.ZeroFrameBreaksOrder` | src/roq/cme/market_data/channel.hpp:37-42 | an unfiltered frame zero followed by frame five delivers zero and then five |
| `HoldBuffer.StaleSlotsStay` | src/roq/cme/market_data/incremental.cpp:377-393 | a dispatch that does not reset never frees a slot whose number has been passed |
| `HoldBuffer.StaleSlotsStayForRun` | src/roq/cme/market_data/incremental.cpp:377-393 | the same over any stretch of a run without a reset |
| `HoldBuffer.DrainLeavesNoneIff` | src/roq/cme/market_data/incremental.cpp:377-393 | from a buffer without passed numbers, the drain leaves none behind if and only if no number that it gets to is held twice |
| `HoldBuffer.TidyStepIff` | src/roq/cme/market_data/incremental.cpp:331-393 | from a buffer without passed or repeated numbers, a dispatch leaves such a buffer if and only if it does not put a packet on hold whose number is held already |
| `HoldBuffer.TidyRunIff` | src/roq/cme/market_data/incremental.cpp:331-401 | in every run from such a buffer, no slot is ever lost to a passed or repeated number if and only if no packet is put on hold while its number is already held |
| `BufferOverflow.SwapLeaksSlot` | src/roq/cme/market_data/incremental.cpp:331-393 | two neighbours swapped on both feeds, in front of any run, are four dispatches that lead to the swapped state |
| `BufferOverflow.SwappedLeaks` | src/roq/cme/market_data/incremental.cpp:331-393 | in that state both packets have been delivered, in order, nothing but passed numbers is held, and one more slot is occupied |
| `BufferOverflow.OverflowWithoutLoss` | src/roq/cme/market_data/incremental.cpp:331-401 | whatever the depth: from any state with an open window, two free slots and nothing but passed numbers held, packets whose neighbours are swapped on both feeds lead to a full buffer |
| `BufferOverflow.OverflowFromTheStart` | src/roq/cme/market_data/incremental.cpp:331-401 | for every depth from two on and any such packets, this is a run from the start of the channel |
| `BufferOverflow.FullBufferResets` | src/roq/cme/market_data/incremental.cpp:395-401 | with a full buffer the next dispatch, whatever it brings, resets the channel |
| `BufferOverflow.NothingIsLost` | src/roq/cme/market_data/manager.cpp:184-193 | nothing is lost in these runs: every packet but the one still to come arrives twice |
| `BufferOverflow.HeadersAreStream` | src/roq/cme/protocol/mdp/frame.cpp:16-32 | such packets exist for any numbers: encoded frames with consecutive numbers parse to them |
| `ChunkAssembly.Snapshot.Update` | src/roq/cme/tools/security.hpp:45-76 | one chunk offered to the assembly: repeated, next, last, out of order and first chunk, with the callback each leads to |
| `ChunkAssembly.Snapshot.Append` | src/roq/cme/market_data/mbofd_market_recovery.cpp:206-212 | the callback appends the entries and notices leftovers under chunk one |
| `ChunkAssembly.OfferKeeps` | src/roq/cme/tools/security.hpp:54-74 | if the state holds chunks 1..n: the callback runs exactly for chunk n + 1, and it sees chunks 1..n + 1 once each and in order, never with leftovers, with `last` exactly if that is the announced total; unless the chunk spoils the assembly, the state then holds those chunks and the new one, nothing if it was the last, the same if it repeats number n, and nothing behind any other number |
| `ChunkAssembly.OfferKeepsIff` | src/roq/cme/tools/security.hpp:54-74 | the state holds chunks numbered from one again if and only if the chunk is not a nonempty chunk one that announces zero to an idle assembly |
| `ChunkAssembly.AssemblesInOrder` | src/roq/cme/tools/security.hpp:45-76 | over every sequence of chunks of which none has spoiled the assembly: whenever the callback runs, the orders are those of all chunks accepted since chunk one, numbered 1, 2, ... up to the present one, each once, with nothing in between but repetitions of the one before; it runs with `last` exactly if there are as many as announced; and chunk one never meets leftover orders |
| `ChunkAssembly.ZeroTotalLeavesOrders` | src/roq/cme/market_data/mbofd_market_recovery.cpp:206-209 | behind a chunk that spoils the assembly the "unexpected" case is reached |
| `ChunkAssembly.ZeroTotalLeaks` | src/roq/cme/tools/security.hpp:54-74 | behind such a chunk a two-chunk snapshot completes with the orders of the earlier chunk in front |
| `ChunkAssembly.SnapshotOutcome` | src/roq/cme/tools/security.hpp:54-74 | what becomes of a snapshot sent whole and in order, from every reachable state: itself from an idle assembly, its tail behind a pending chunk one, nothing otherwise |
| `ChunkAssembly.LostChunkCostsOneSnapshot` | src/roq/cme/tools/security.hpp:66-67 | a chunk that skips a number drops what is held, and the next snapshot sent whole and in order completes as itself |
| `ChunkAssembly.SingleChunkSticks` | src/roq/cme/tools/security.hpp:69-73 | behind a finished single-chunk snapshot no number of further single-chunk ones is completed |
| `Recovery.Security.UpdateRptSeq` | src/roq/cme/tools/security.cpp:13-25 | a gap is any nonzero report number other than the successor of the stored one, which it replaces |
| `Recovery.Security.CheckReportSequence` | src/roq/cme/market_data/incremental.cpp:1380-1403 | a gap flags both books with the frame number and publishes both as stale |
| `Recovery.Security.DispatchIncremental` | src/roq/cme/market_data/incremental.cpp:871-945 | for any callbacks: a published snapshot clears the flag of its book, a requested one and a throw set it to the frame number (market by order is the same at 966-1049) |
| `Recovery.Security.DispatchRecovery` | src/roq/cme/market_data/mbp_market_recovery.cpp:328-398 | the force decision, the offer to the sequencer, and the flag after any callbacks; a throw leaves the flag alone |
| `Recovery.Security.HandleMbpSnapshot` | src/roq/cme/market_data/mbp_market_recovery.cpp:200-222 | a price snapshot is offered only behind a raised flag, no older than the flag, and not empty |
| `Recovery.Security.HandleMboSnapshot` | src/roq/cme/market_data/mbofd_market_recovery.cpp:173-289 | a chunk passes the same gate, joins the assembly, and the assembled orders are offered with the last chunk |
| `RecoverySafety.StepEventKeeps` | src/roq/cme/market_data/incremental.cpp:1380-1415 | every event of a channel (definition, frame, reset, either kind of snapshot) keeps the invariant that ties flags and window to the log |
| `RecoverySafety.RecoveryIsGatedAndForceExact` | src/roq/cme/market_data/mbp_market_recovery.cpp:206-219 | in every run, whatever the sequencers do, every snapshot offered is at least as new as the latest gap of its security since the last reset, and it is forced if and only if every frame from the flag to the snapshot was delivered, in order, since that reset |
| `RecoverySafety.RecoveryIsNeverForgotten` | src/roq/cme/market_data/incremental.cpp:905-944 | in every run, a book made stale by a gap stays flagged until a SNAPSHOT of that same book is published, through all callbacks and throws of both paths |
| `RecoveryFlags.IncrementalFlag` | src/roq/cme/market_data/incremental.cpp:871-945 | after a dispatch on the incremental channel the flag is the frame if the sequencer threw; otherwise the last callback that is more than an update decides: zero for a published snapshot, the frame for a requested one, and unchanged if there is none; nothing else of the security changes |
| `RecoveryFlags.RecoveredFlag` | src/roq/cme/market_data/mbp_market_recovery.cpp:335-397 | after a recovery snapshot has been handed to a sequencer the callbacks decide in the same way, throw or not |
| `RecoveryFlags.FlagIsRaisedIff` | src/roq/cme/market_data/incremental.cpp:905-944 | in every run the flag of a book is raised if and only if its latest gap, requested snapshot or incremental throw comes after its latest SNAPSHOT, and then it is the number of that gap, request or throw |
| `RecoveryFlags.CallbacksAreTold` | src/roq/cme/market_data/mbp_market_recovery.cpp:335-377 | every callback leads to the one output of its kind, in order |
| `RecoveryFlags.PriceSnapshotIsOfferedIff` | src/roq/cme/market_data/mbp_market_recovery.cpp:200-222 | a price snapshot is offered if and only if the security is known and flagged, the snapshot is no older than the flag and not empty; with that flag and force decision, followed by what the callbacks publish; otherwise nothing changes |
| `RecoveryFlags.OrderSnapshotIsOfferedIff` | src/roq/cme/market_data/mbofd_market_recovery.cpp:173-272 | an order book is offered if and only if the security is known and flagged, the chunk is no older than the flag, is the successor of those held and the last it announces; and what is offered are the orders held and its own |
| `RecoverySafety.ForceIffCovered` | src/roq/cme/market_data/mbp_market_recovery.cpp:378-379 | behind the gate, `first <= flag` and `number <= last` hold if and only if all frames from flag to number were delivered, one after the other, since the reset |
| `RecoverySafety.DeliveriesAreExecutable` | src/roq/cme/market_data/channel.hpp:32-42 | what arbitration hands over is a legal run of the recovery system, whatever the frames contain |
| `RecoverySafety.SilentIffContiguous` | src/roq/cme/tools/security.cpp:13-25 | no gap is reported over a list of report numbers exactly if those that are not zero continue the last one without a hole |
| `OrderSnapshots.SingleChunkLeavesState` | src/roq/cme/tools/security.hpp:69-73 | a first single-chunk snapshot is offered and leaves the assembly waiting behind chunk one |
| `OrderSnapshots.SingleChunkRecoveryWorksOnce` | src/roq/cme/market_data/mbofd_market_recovery.cpp:206-285 | from there, in every continuation with single-chunk snapshots only, whatever gaps, frames and resets it contains, no order book snapshot of the security is offered again |
| `OrderSnapshots.MixedSnapshotIsOffered` | src/roq/cme/market_data/mbofd_market_recovery.cpp:206-272 | a run in which a chunk read before a gap is offered after it, joined to a chunk of a newer snapshot |
| `OrderSnapshots.SnapshotsMixWithoutGap` | src/roq/cme/market_data/mbofd_market_recovery.cpp:206-272 | a run from the start in which, with no gap in between, chunk one of one snapshot and chunk two of another are offered as one order book |
| `OrderSnapshots.CleanStepIff` | src/roq/cme/market_data/mbofd_market_recovery.cpp:180-213 | if all held orders are at least as new as the latest gap, they are so after an event if and only if the event is not a frame whose items and the stored report number show a gap while older orders are held |
| `OrderSnapshots.CleanRunIff` | src/roq/cme/market_data/mbofd_market_recovery.cpp:180-213 | over every run: the held orders are always at least as new as the latest gap if and only if no frame shows a gap while older orders are held |
| `OrderSnapshots.OfferedBooksAreClean` | src/roq/cme/market_data/mbofd_market_recovery.cpp:206-272 | in every such run, every order book that is offered holds only orders at least as new as the latest gap of its security |
| `OrderSnapshots.OneSnapshotIff` | src/roq/cme/market_data/mbofd_market_recovery.cpp:173-289 | whenever a run offers an order book, it is put together from all chunks accepted since chunk one, and all its orders are of the snapshot of the last chunk if and only if every one of these chunks that has orders is as of the same frame |
| `OrderSnapshots.OrdersAreBrought` | src/roq/cme/market_data/mbofd_market_recovery.cpp:206-212 | the orders of an offered order book are those its chunks brought, chunk by chunk and in order, each as of the frame of its own chunk |
| `OrderSnapshots.OfferIsCleanIff` | src/roq/cme/market_data/mbofd_market_recovery.cpp:206-272 | whenever a run offers an order book, all its orders are at least as new as the latest gap of the security if and only if every one of these chunks that has orders is |
| `ChannelSafety.StoryIsExecutable` | src/roq/cme/market_data/manager.cpp:184-193 | any packets on the two feeds, interleaved with snapshots and definitions, make a legal run of recovery |
| `ChannelSafety.RecoveryIsSafeOnTheWire` | src/roq/cme/market_data/mbp_market_recovery.cpp:206-219 | gating, the exact force decision, never forgetting and the exact meaning of the flags, from the arrival of packets to the recovery log |
| `TradeSummary.Shared.DispatchTradeSummary` | src/roq/cme/market_data/incremental.cpp:1070-1336 | one message: continue the pending event or start another by transact time, wait while slots are outstanding, otherwise publish order updates and trades per security and clear |
| `TradeSummary.Shared.AddMessage` | src/roq/cme/market_data/incremental.cpp:1086-1117 | the same transact time continues the pending event, another one starts afresh |
| `TradeSummary.Shared.Flush` | src/roq/cme/market_data/incremental.cpp:1200-1335 | order updates per security, then trades per security, then nothing is pending |
| `TradeSummary.Shared.AddEntries` | src/roq/cme/market_data/incremental.cpp:1092-1112 | ids in order of first appearance, the running total of announced orders |
| `TradeSummary.CollectOrders` | src/roq/cme/market_data/incremental.cpp:1209-1246 | the nested loops with running offsets give the order updates of the security's lines, an entry with its own slots |
| `TradeSummary.CollectTrades` | src/roq/cme/market_data/incremental.cpp:1266-1328 | the same for the trades |
| `TradeSummary.EntryOrders` | src/roq/cme/market_data/incremental.cpp:1215-1240 | the order updates of one entry: every slot but the aggressor's, on the opposite side if the slot read for the aggressor carries the entry's size |
| `TradeSummary.EntryTrades` | src/roq/cme/market_data/incremental.cpp:1271-1322 | the trades of one entry, with taker and maker, also if it reports no orders and looks at a slot of another entry |
| `TradeSummaryLaws.FlushIsOneShot` | src/roq/cme/market_data/incremental.cpp:1201-1330 | a flush publishes for every security exactly its one-shot trades and order updates, and nothing for any other |
| `TradeSummaryLaws.OrdersComeFirst` | src/roq/cme/market_data/incremental.cpp:1200-1335 | a flush publishes all order updates before the first trade |
| `TradeSummaryLaws.ServedByFirstAppearance` | src/roq/cme/market_data/incremental.cpp:1092-1112 | the securities of an event are served in the order in which they first appear in it |
| `TradeSummaryLaws.OneShotSplits` | src/roq/cme/market_data/incremental.cpp:1078-1143 | the one-shot result of an event splits at every prefix whose slots are complete |
| `TradeSummaryLaws.FragmentsDoNotShow` | src/roq/cme/market_data/incremental.cpp:1078-1143 | however an event is cut into messages of one transact time, with slots never ahead of the counts, each security receives exactly the one-shot trades and order updates of the whole event, even where a complete prefix is flushed early |
| `TradeSummaryLaws.NothingLeftIff` | src/roq/cme/market_data/incremental.cpp:1086-1136 | for messages of one match event whose counts and slots balance, nothing stays behind after the last one if and only if the slots never run ahead of the counts |
| `TradeSummaryLaws.SlotsAheadAreLost` | src/roq/cme/market_data/incremental.cpp:1129-1136 | with a slot ahead of the counts, one of two trades is never published |
| `TradeSlots.SlotsIncrease` | src/roq/cme/market_data/incremental.cpp:1209-1246 | a security meets its slots in order and at most once per stream |
| `TradeSlots.SlotsPartition` | src/roq/cme/market_data/incremental.cpp:1209-1328 | a slot is in the stream of a security exactly if its entry is of that security and the stream does not leave it out |
| `TradeSlots.OneEntryPerSlot` | src/roq/cme/market_data/incremental.cpp:1209-1246 | no slot belongs to two entries |
| `TradeSlots.TradesAreTheSlotsIff` | src/roq/cme/market_data/incremental.cpp:1266-1328 | the trades of a security are its slots, one by one, same order and same quantity, if and only if none of its aggressor entries without orders borrows a slot of another entry; each that does adds one trade |
| `TradeSlots.NothingBorrowed` | src/roq/cme/market_data/incremental.cpp:1274-1300 | nothing is borrowed if every aggressor entry of the security reports at least one order |
| `TradeSlots.SlotTradesTwice` | src/roq/cme/market_data/incremental.cpp:1274-1300 | an aggressor entry without orders and its neighbour make two trades of one slot |
| `TradeSlots.OrdersAreTheSlots` | src/roq/cme/market_data/incremental.cpp:1209-1246 | the order updates of a security are always its slots, one by one |
| `TradeSlots.TradesOnTerms` | src/roq/cme/market_data/incremental.cpp:1274-1322 | every trade has the entry's scaled price, side and trade id; it names taker and maker both only if the slot read for the aggressor carries the entry's size, and then that order is the taker |
| `TradeSlots.OrdersOnTerms` | src/roq/cme/market_data/incremental.cpp:1216-1240 | every order update has the entry's scaled price, and the side opposite to the aggressor exactly if the slot read for the aggressor carries the entry's size |
| `TradeSlots.CoveringAggressor` | src/roq/cme/market_data/incremental.cpp:1216-1240 | an aggressor, buying or selling, whose order carries the size of the entry and has counterparties: one trade for each of those, with that order as the taker and theirs as the maker, and an order update for each of those on the other side |
| `TradeSlots.PartialAggressor` | src/roq/cme/market_data/incremental.cpp:1274-1322 | an aggressor whose order carries another size, or has no counterparties: one trade for every slot, with the aggressor's order as the taker of the first and the others each as the maker of theirs, never both; order updates of the others on the aggressor's side |
| `TradeSlots.WithoutAggressor` | src/roq/cme/market_data/incremental.cpp:1306-1322 | an entry without an aggressor: one trade and one order update for every slot, without a taker and without a side |
| `TradeSlots.SlotlessAggressor` | src/roq/cme/market_data/incremental.cpp:1274-1300 | an aggressor entry without slots trades the slot it finds in front of it, with that order as the taker, unless that carries the size of the entry; it makes no order updates |
| `TradeSlots.AggressorTradesItsSize` | src/roq/cme/market_data/incremental.cpp:1274-1322 | an aggressor entry whose first slot carries its size trades exactly its size if and only if it has no counterparties or they add up to it |
| `TradeSlots.ReadsInRangeIff` | src/roq/cme/market_data/incremental.cpp:1216-1217 | a flush, with or without surplus slots, reads nothing outside the buffer if and only if a slot of its own, of a later entry or a surplus one follows every aggressor entry of a known security |
| `Grouping.RunsAreBoundaries` | src/roq/cme/market_data/incremental.cpp:628-640 | the places where a run is dispatched correspond one to one to the maximal runs of equal ids |
| `RefreshBook.Handler.Handle` | src/roq/cme/market_data/incremental.cpp:584-724 | one message: the outputs of every maximal run of a known security, then of every run of resolved order entries; the scratch buffers are empty again |
| `RefreshBook.Handler.ProcessLevels` | src/roq/cme/market_data/incremental.cpp:594-679 | the first pass, and an entry table that describes the i-th level whether or not its security is known |
| `RefreshBook.Handler.ProcessOrders` | src/roq/cme/market_data/incremental.cpp:680-723 | the second pass: references of zero or beyond the levels are skipped, the others resolved through the entry table, and no order is left over |
| `RefreshBook.Handler.Record` | src/roq/cme/market_data/incremental.cpp:641-656 | the entry table gains the level at hand, and the snapshot marks say whether any level so far has report number one |
| `RefreshBook.Handler.DispatchRun` | src/roq/cme/market_data/incremental.cpp:600-623 | top of book, levels and cleared orders of a run are published if there are any, and cleared |
| `Grouping.OwnIsLostAndLive` | src/roq/cme/market_data/incremental.cpp:628-640 | whatever is grouped by security id, only what a leading run of id zero holds is not looked up |
| `RefreshBookLaws.EveryLevelOnceIff` | src/roq/cme/market_data/incremental.cpp:116-140 | every bid (or offer) of a known security is published once, in order, under that security, with the price under the display factor, the number of orders and the action as they came, the quantity zero exactly for a deletion, and the level counted from zero, if and only if its id is not zero or no such level stands in a leading run of id zero |
| `RefreshBookLaws.BestIsLast` | src/roq/cme/market_data/incremental.cpp:600-614 | the top of book of a run carries its last best bid and its last best offer |
| `RefreshBookLaws.BestIsNone` | src/roq/cme/market_data/incremental.cpp:600-614 | and none where the run has none |
| `RefreshBookLaws.EveryOrderOnceIff` | src/roq/cme/market_data/incremental.cpp:594-723 | the orders published for a known security are its deleted bids and offers, without quantity, priority and id, and then its order entries with a reference between one and the number of levels, each once, in order and with the side and the scaled price of level `reference - 1`, if and only if its id is not zero or neither a level to be cleared nor such a reference leads with id zero |
| `RefreshBookOutputs.EveryReportOnceIff` | src/roq/cme/market_data/incremental.cpp:628-648 | every report number of a known security is checked once, in order, if and only if its id is not zero or no level of id zero leads |
| `RefreshBookOutputs.TopsAreLastBest` | src/roq/cme/market_data/incremental.cpp:600-614 | one top of book for each run of a known security with a best bid or a best offer, with the last of each |
| `RefreshBookOutputs.LevelMarksAreDue` | src/roq/cme/market_data/incremental.cpp:615-645 | one publication of levels for each run with bids or offers, marked as a snapshot exactly if a level of that run has report number one |
| `RefreshBookOutputs.OrderMarksAreDue` | src/roq/cme/market_data/incremental.cpp:619-723 | cleared orders, one publication for each run that has any, never marked as a snapshot; then the order entries run by run, marked exactly if any level of the message, of whatever security, has report number one |
| `RefreshBookOutputs.RunIsInOrder` | src/roq/cme/market_data/incremental.cpp:600-648 | a run leads to its checks, then the top of book, then the levels, then the cleared orders, of the last three at most one each |
| `RefreshBookOutputs.NothingForUnknown` | src/roq/cme/market_data/incremental.cpp:628-648 | nothing at all is published for a security that is not known |
| `OrderBookBatch.Cache.Handle` | src/roq/cme/market_data/incremental.cpp:738-800 | one message adds its bids and offers of known securities; if it ends the event, every touched security is sent its own updates; the scratch orders are empty before and after |
| `OrderBookBatch.Cache.Collect` | src/roq/cme/market_data/incremental.cpp:752-771 | what a message adds, and which securities it touches |
| `OrderBookBatch.Cache.Flush` | src/roq/cme/market_data/incremental.cpp:775-797 | one dispatch for each touched security, in any order, with exactly the updates that wait for it |
| `OrderBookBatch.Cache.OnSequenceReset` | src/roq/cme/market_data/incremental.cpp:1405-1415 | a reset drops what waits |
| `OrderBookBatchLaws.AddedIsShareIff` | src/roq/cme/market_data/incremental.cpp:752-771 | what a message adds for a security are its own bids, to buy, and offers, to sell, in order, with size, priority, order id and action as they came and the price under the display factor, if and only if its id is not zero or none of them stand in a leading run of id zero |
| `OrderBookBatchLaws.FlushSends` | src/roq/cme/market_data/incremental.cpp:775-797 | a flush sends a security exactly what waits for it |
| `OrderBookBatchLaws.EachTouchedOnce` | src/roq/cme/market_data/incremental.cpp:775-797 | the end of an event is one dispatch for each known security touched since the last one, and none for any other, marked as a snapshot exactly if its security has not had a report number yet |
| `OrderBookBatchLaws.TouchedIff` | src/roq/cme/market_data/incremental.cpp:752-771 | a message touches a security if and only if it is known and one of its entries, of any kind, does not stand in a leading run of id zero |
| `OrderBookBatchLaws.BatchingIsPerSecurity` | src/roq/cme/market_data/incremental.cpp:738-800 | over every run of messages and resets, each security has been sent exactly its own updates up to the last end of event, once and in order, and exactly the later ones wait |
| `StreamFraming.ParseAll` | src/roq/cme/gateway/order_entry.cpp:707-722 | the read loop dispatches the complete messages and drains exactly their bytes |
| `StreamFraming.Receiver.OnRead` | src/roq/cme/gateway/order_entry.cpp:707-722 | one read continues the stream from the bytes left over |
| `StreamFraming.ParseIsStable` | src/roq/cme/protocol/ilink/parser.cpp:22-43 | further bytes never change a decided frame |
| `StreamFraming.ChunkingIsIrrelevant` | src/roq/cme/gateway/order_entry.cpp:707-722 | for any bytes, well formed or not, every cut into reads dispatches the same messages and reaches the same verdict |
| `StreamFraming.RecoversAtEveryCut` | src/roq/cme/gateway/order_entry.cpp:707-722 | at every cut of a stream of sent messages, the complete ones are recovered in order and the remainder is a proper prefix of the next frame |
| `StreamFraming.RoundTrip` | src/roq/cme/gateway/order_entry.cpp:1360-1391 | messages sent and received through any cut into reads come out as themselves, with nothing left over |
| `StreamFraming.FirstFrameBytes` | src/roq/cme/protocol/ilink/parser.cpp:22-43 | the first frame byte by byte: a length in two bytes, the lowest first, which counts the header; the bytes FE and CA, or the stream is broken; then the body, if it is there in full |
| `StreamFraming.SentBytes` | src/roq/cme/gateway/order_entry.cpp:1360-1391 | and so what is sent |
| `PacketFrame.ParseUndoesEncode` | src/roq/cme/protocol/mdp/frame.cpp:16-32 | the header reads back, whatever follows it |
| `PacketFrame.EncodeUndoesParse` | src/roq/cme/protocol/mdp/frame.cpp:16-32 | the decoded fields, written out again in front of the rest, are the packet |
| `PacketFrame.HeaderBytes` | src/roq/cme/protocol/mdp/frame.cpp:16-32 | the header byte by byte: four bytes of frame number, then eight of sending time, the lowest first |
| `PacketSplitter.Dispatch` | src/roq/cme/protocol/mdp/parser.cpp:47-243 | the dispatched messages, the frame they come with, and the result: true exactly for a clean walk |
| `PacketSplitter.WalkMessages` | src/roq/cme/protocol/mdp/parser.cpp:55-237 | the loop ends, dispatches the supported messages in order, skips the dropped templates and stops at an unknown one |
| `PacketSplitter.SplitUndoesEncode` | src/roq/cme/protocol/mdp/parser.cpp:32-66 | a packet of any messages is taken apart again, up to the first unknown template, and the verdict says whether there was one |
| `PacketSplitter.CleanIsEncoded` | src/roq/cme/protocol/mdp/parser.cpp:55-66 | only packets that are exactly a concatenation of known messages are clean |
| `PacketSplitter.DispatchedByTemplate` | src/roq/cme/protocol/mdp/parser.cpp:66-237 | of a packet of any messages, exactly those with one of the 24 handled templates are dispatched, in order, up to the first whose template is neither handled nor one of the six ignored ones; the packet is clean exactly if there is none such |
| `PacketSplitter.PrefixBytes` | src/roq/cme/protocol/mdp/parser.cpp:16-66 | the prefix byte by byte: size, block length, template, schema and version, two bytes each, the lowest first |
| `Bytes.DecodeUndoesEncode` | src/roq/cme/protocol/mdp/frame.cpp:21-29 | little-endian decoding undoes encoding |
| `Bytes.EncodeUndoesDecode` | src/roq/cme/protocol/mdp/frame.cpp:21-29 | and the other way round |
| `OutboundNumbering.Session.Send` | src/roq/cme/gateway/order_entry.cpp:1346-1391 | every attempt carries the number due at its place, and the counter is kept |
| `OutboundNumbering.Session.Execute` | src/roq/cme/gateway/order_entry.cpp:1542-1738 | a command appends its messages in order, all correctly numbered; every request that names a party directly follows a definition of the party; an order request is two messages, the definition and the request, and a rejected one sends nothing |
| `OutboundNumbering.Session.Disconnected` | src/roq/cme/gateway/order_entry.cpp:697-705 | a new connection counts from the beginning |
| `OutboundNumbering.WireNumber` | src/roq/cme/gateway/order_entry.cpp:1346-1354 | the k-th sequenced message on the wire carries k plus the number of sends that failed before it, modulo 1000000000 |
| `OutboundNumbering.PlaceOnWireIff` | src/roq/cme/gateway/order_entry.cpp:1372-1389 | it carries its place on the wire, modulo 1000000000, if and only if the sends that failed before it make up full cycles; fewer than a cycle means none |
| `OutboundNumbering.AnnouncedIsNext` | src/roq/cme/gateway/order_entry.cpp:1421-1461 | every Establish and Sequence announces exactly the number of the next sequenced message |
| `OutboundNumbering.NumberIsRequestsBefore` | src/roq/cme/gateway/order_entry.cpp:1346-1354 | every message but a Negotiate carries one more than the number of definitions and requests sent before it, modulo 1000000000 |
| `RequestId.DecodeUndoesEncodeIff` | src/roq/cme/gateway/order_entry.cpp:103-112 | decoding undoes encoding exactly for order ids of at most 48 bits |
| `RequestId.EncodeIsInjective` | src/roq/cme/gateway/order_entry.cpp:103-105 | distinct requests never share an id |
| `RequestId.EncodedValue` | src/roq/cme/gateway/order_entry.cpp:103-105 | the id is the type times 2^56, plus the user times 2^48, plus the order number |
| `RequestId.CounterIsApartIff` | src/roq/cme/gateway/order_entry.cpp:1356-1358 | a counter value collides with no create, modify or cancel id exactly while it is below 2^56 or from 2^58 on |
| `SecurityIndex.SecurityDefinitions.constructor` | src/roq/cme/market_data/security_definitions.cpp:52-59 | the index after reading all records of the file |
| `SecurityIndex.SecurityDefinitions.Load` | src/roq/cme/market_data/security_definitions.cpp:25-40 | one record of the file: discarded symbols leave no trace, a repeated id keeps its first security |
| `SecurityIndex.SecurityDefinitions.CreateSecurity` | src/roq/cme/market_data/security_definitions.hpp:30-38 | the insertion into the three maps |
| `SecurityIndex.SecurityDefinitions.OnDefinition` | src/roq/cme/market_data/incremental.cpp:61-80 | a definition from the feed leaves known ids alone |
| `SecurityIndex.NoOrderHitsMissingSecurity` | src/roq/cme/gateway/order_entry.cpp:1565-1622 | after any file and any feed definitions, every id reachable by group or by segment and symbol is present and not discarded, so no order reaches the fatal branch |
| `SecurityIndex.EveryRecordIsUsable` | src/roq/cme/market_data/shared.cpp:53-101 | when the file is read again for publication, every record that is not discarded finds its security |
| `SecurityIndex.UnguardedCreateIff` | src/roq/cme/market_data/security_definitions.hpp:30-38 | without the guard, an insertion keeps the index coherent exactly if the new definition is discarded or the id is not already there as a discarded one |
| `SecurityLookups.LookupsFindFirst` | src/roq/cme/market_data/security_definitions.hpp:30-38 | after any file and any feed: a segment and a symbol lead to the id filed under them first, a group to all ids filed under it, and an id to its first security, and to nothing where there is none; filed are the records that are not discarded, and then each feed definition that is not and has a new id |
| `SecurityLookups.EveryRecordIsFound` | src/roq/cme/market_data/security_definitions.cpp:25-40 | every record that is not discarded is found under its segment and symbol, its group and its id |
| `SecurityLookups.OrderIsRoutedIff` | src/roq/cme/gateway/order_entry.cpp:1565-1622 | an order is routed to a security if and only if that is the first one filed under its segment and symbol, and it trades on the exchange of the order |
| `SecdefReader.Dispatch` | src/roq/cme/secdef/config_reader.cpp:78-93 | the reader's loop ends, with the records and the outcome of the specification on every text |
| `SecdefReader.ParseUndoesPrint` | src/roq/cme/secdef/config_reader.cpp:19-60 | any list of printed records comes back as one call per record, in order, with the last value of each recognised tag and nothing of its neighbours |
| `SecdefReader.RecordHoldsLastValues` | src/roq/cme/secdef/config_reader.cpp:19-60 | a record holds the twelve tags and no others, each exactly if a field has it, with the value of the last such field |
| `SecdefReader.SeparatorsAre` | src/roq/cme/secdef/config_reader.cpp:82-82 | fields end at the character with code one or at the end of a line |
| `SecdefReader.ReadToTheEndIff` | src/roq/cme/secdef/config_reader.cpp:78-93 | the reader gets to the end of a text, instead of throwing, if and only if the text is empty, or ends with a separator and has an equals sign in every nonempty stretch between separators |
| `SecdefReader.TwoLinesIff` | src/roq/cme/secdef/config_reader.cpp:82-91 | two lines stay two records if and only if the last field of the first line has its own separator; otherwise the two lines are one record |

## Left out

- Sockets, multicast membership, the connection manager, timers, metrics, logging, flags and the application mains.
- The internals of the reorder buffer, of the order book sequencers, of the download state machine and of the dispatcher caches: only the interfaces described above are modelled.
- The contents of published books and of the updates handed to the sequencers: recovery is modelled through the flags, the offers and the kinds of publication.
- Message bodies: decoded messages are values, so the generated codecs, the enumeration tables and the formatters are not part of this model.
- Several channels that carry the same security: a security has one channel, as the frame numbers of its flags presuppose.
- Exceptions that the packet parser throws in the middle of a dispatch of the incremental feed.
- Numeric conversions of the definitions file: a record holds the text of its fields; tags that are not plain decimal numbers, or do not fit 32 bits, count as unrecognised.
- Price rounding and conversion to wire prices, quantities as floating point, heartbeat timing and the signature of the logon messages.
- Statistics, limits, trading status and instrument definition handlers: they add only straight field copies around the same grouping.
- The configuration indexes of `src/roq/cme/protocol/mdp/config.cpp`: nested map filling without state.
- A change of the set of known securities in the middle of a match event, and between the entries of one message.
- The option that switches market by order off for the order book updates of `src/roq/cme/market_data/incremental.cpp:739`: the handler does nothing then.
- Templates of the order entry stream: a framed body is one message.
- FeedArbitration.StepKeeps: requires that a frame numbered zero is filtered, or arrives behind an open window that has not come to the end of the 32-bit numbers; `StepKeepsIff` shows that this is exactly what is needed.
- TradeSummary.Shared.DispatchTradeSummary: requires that a flush reads no slot outside the buffer, where the program's behaviour is undefined; `TradeSlots.ReadsInRangeIff` gives the exact condition.
- TradeSummary.Shared.Flush: requires the same.
- TradeSummary.CollectOrders: requires the same for the entries of its security.
- TradeSummary.CollectTrades: requires the same for the entries of its security.
- TradeSummary.EntryOrders: requires the same for its entry.
- TradeSummary.EntryTrades: requires the same for its entry.
- TradeSummaryLaws.FragmentsDoNotShow: requires slots never to run ahead of the counts; `SlotsAheadAreLost` and `NothingLeftIff` show that this is needed.
- OrderBookBatchLaws.BatchingIsPerSecurity: requires that no bid or offer of id zero leads a message, if that is the security in question, which `AddedIsShareIff` shows to be needed; and presupposes that a known security stays known, as the index guarantees.
- BufferOverflow.OverflowWithoutLoss: is stated for packets whose numbers stay below the last 32-bit number, so that no frame number wraps.
- BufferOverflow.OverflowFromTheStart: is stated for such packets as well.
- ChunkAssembly.AssemblesInOrder: requires that no earlier chunk spoiled the assembly, which `OfferKeepsIff` shows to be needed for what is held, and that no chunk number zero comes behind 2^32 - 1 chunks, where the chunk number would wrap.
- OrderSnapshots.OneSnapshotIff: requires the same of the chunks of its security.
- OrderSnapshots.OfferIsCleanIff: requires the same.
- RecoveryFlags.OrderSnapshotIsOfferedIff: requires that a chunk number zero does not come behind 2^32 - 1 chunks held.
- OrderSnapshots.OfferedBooksAreClean: gives a condition on the run that is enough; the exact one for each offer is `OfferIsCleanIff`.
- OrderBookBatch.Cache.Flush: leaves the iteration order over the touched securities open, as the program's unordered set does.
- PacketSplitter.Dispatch: a size below the prefix or beyond the packet is reported as malformed, where the program throws or reads outside the packet.
- StreamFraming.ParseAll: a length smaller than the header is reported as undefined, where the program computes a body of negative size.
