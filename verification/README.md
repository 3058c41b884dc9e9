# A verified model of the matching book

This project models a single-writer FIFO limit order book and proves that its
fast form behaves like a very simple one.

The simple form (`SpecBook.dfy`) is a book of two priority-ordered sequences of
resting orders and a pure function from a command to the next book and its
events. The fast form keeps four mutable structures that must agree at all
times:

* an open-addressed id map with tag bytes and backward-shift deletion
  (`Probing.dfy`, `OrderMap.dfy`, `Masks.dfy`), for an arbitrary hash;
* two price indexes, each either a direct-indexed ladder with a two-level
  bitmap and a cached best cursor (`Words.dfy`, `Bitmap.dfy`, `Ladder.dfy`) or
  an ordered map (`PriceIndex.dfy`), behind one contract (`LevelView.dfy`);
* an order store of six-slot chunks in doubly linked lists over one array with
  an intrusive free list (`Chunks.dfy`, `StoreState.dfy`, `StoreSteps.dfy`,
  `StoreUnlink.dfy`, `StoreLink.dfy`, `StoreWrite.dfy`, `Store.dfy`).

`Glue.dfy` and `BookState.dfy` say, over values, when these four stand for one
reference book, including the weakened states inside a command: a level in hand
whose index entry lags behind the store, and an id that stays mapped while its
order is off the book. `OrderBook.dfy` is the book as a class whose methods
follow the source; each is proved to change the book and to emit events exactly
as the reference does. `CheckInvariants.dfy` makes each test of the source's own
invariant check an assertion, proved on every valid book. `BookOrder.dfy` reads a
book in book order and rebuilds it.

`SpecCommands.dfy` says what every command does in words of its own, the prices,
quantities and ids on the book and nothing of the reference's definition: why each
command is refused, what a market and a limit order trade and with whom, what a
Cancel removes, and when a Replace keeps its place.

On the reference book, `SpecInvariant.dfy`, `SpecQueues.dfy`,
`SpecArrival.dfy`, `SpecProperties.dfy`, `SpecConservation.dfy`, `SpecEvents.dfy`,
`SpecConfig.dfy` and `SpecRuns.dfy` prove what every run keeps: price and arrival
order, exact fill-or-kill, conservation of quantity, an event stream that
reconstructs the live book, a book that is never crossed, when two configurations
can be told apart, and independence of the index kind (`IndexEquivalence.dfy`
states it for the two concrete books).

`JsonFlat.dfy`, `CommandText.dfy`, `Snapshot.dfy` and `SnapshotStore.dfy` model
the text forms: decimals, the flat key search, command lines and snapshot
documents. Reading and writing are tied to the literal text (which names, which
keys, which digits) as well as to each other by round trips.

Hypotheses. A ladder's span is at most 2^32 - 1 ticks, since cursors are u32 with
a reserved NIL (`OrderBooks.RangeOk`); `max_orders` is at most 2^29, as the source
asserts. Level totals and range sums wrap at 2^64, as an optimised build computes
them; `SpecProperties.FokDecisionExact` says exactly when that changes a
decision. Restored orders differ in their ids, have positive quantities, fit the
capacity and, on a ladder, lie in its range, as a document written by a book that
fits always does (`BookOrder.Insertable`); they may be crossed or of any time in
force, and `OrderBooks.Restore` says when the result is a well-formed book.

How the source's form is kept. Objects updated in place are classes. A `&mut
Level` argument is passed in and handed back, and written to the index when the
borrow ends (`BorrowLevel`, `KeepLevel`, `ReturnLevel`). Parts of long source
functions are methods of their own: `MatchHead`, `TakeFromHead`, `MatchMaker`,
`MatchInHand` and `MatchLevel` are the body of the matching loops; `CheckNew`
and `Admit` the two halves of a New; `Reduce`, `Reserve`, `Requote`, `Settle`,
`RestReplaced` and `Forget` the branches of a Replace; `MakeRoom` the first half
of a push; `Probe`, `CloseHole` and `MoveBack` the loops of the id map and
`RemoveAt` the rest of its removal; `IterChunk` the inner loop of reading a
level; `SetBits` and `ClearBits` the writes to the two-level bitmap, and
`SumWord`, `RescanUp`, `RescanDown`, `NextWordUp`, `NextWordDown`, `DepthUp` and
`DepthDown` the branches of the ladder's walks; `CheckSlots`, `CheckLevel`,
`CheckEntry`, `CheckLadder` and `CheckSide` the loops of the invariant check;
`WriteBody` the arms of the command printer. The chunk array is a sequence the
methods reassign, because it grows; the table and ladder arrays are arrays. Text
written by one format string is appended field by field.

`dafny verify --verification-time-limit 0 dfyconfig.toml` checks everything here.
Proofs are kept short enough for `--resource-limit 2000000` with room to spare.

## Model

| member | source | states |
|---|---|---|
| SpecInvariant.ApplyKeeps | src/book.rs:70-303 | every command keeps the book well formed: both sides sorted and with unique ids, every order positive and gtc or post_only, ids of the two sides disjoint, never crossed, never over capacity; `seq` grows by the number of events |
| SpecInvariant.RunKeeps | src/book.rs:90-116 | so does every run of commands |
| SpecInvariant.RunPriced | src/book.rs:490-497 | over every run, every resting order stays at a price that passes the price check of its index kind |
| SpecInvariant.CrossOk | src/book.rs:305-403 | what a match leaves is a well-formed side, a remainder survives only if the side is empty or its first order is beyond the bound |
| SpecCommands.SidesInOrder | src/index.rs:31-38 | bids run from the highest price down, asks from the lowest up, and every bid is below every ask |
| SpecCommands.NewRefusals | src/book.rs:132-169 | a New is refused as invalid_qty iff its quantity is 0; else as invalid_price iff it is a limit order outside the accepted prices; else as duplicate_order_id iff the id rests on either side; else as book_full iff the book is at capacity; else a limit order as post_only_would_cross iff some opposite order is at its price or better, or as fok_cannot_fill iff the quantity offered there, taken modulo 2^64, is less than it wants; nothing is rejected iff none of these holds; a refusal is one event and changes only `seq` |
| SpecCommands.MarketNew | src/book.rs:171-189 | an accepted market order trades the smaller of its quantity and all that rests opposite, from the makers in their order at their own prices; its own side is unchanged; the last event is Closed filled iff all of it was there, else expired |
| SpecCommands.MarketIgnores | src/types.rs:105-116 | price and time in force of a market order do not matter |
| SpecCommands.LimitNew | src/book.rs:171-189 | an accepted limit order trades the smaller of its quantity and what is offered at its price or better, never at a worse price; a remainder rests behind every order at its price or better iff gtc or post_only and is accepted with that quantity, else it expires |
| SpecCommands.CancelDoes | src/book.rs:191-216 | a live order leaves the book closed as cancelled and everything else stays; the Cancel is refused as unknown_order_id iff no order has the id |
| SpecCommands.ReplaceRefusals | src/book.rs:220-229 | unknown_order_id iff no order has the id, else invalid_qty iff the quantity is 0, else invalid_price iff the price is not accepted, for an order of any kind; else nothing is rejected |
| SpecCommands.ReplaceKeepsPlace | src/book.rs:241-257 | the same price and no more quantity: the order keeps its place with the new quantity, nothing else changes, one Replaced event |
| SpecCommands.ReplaceLosesPlace | src/book.rs:261-303 | another price or more quantity: the order trades like a limit order at the new price, and what is left of it is the last at that price on its side; the other orders keep their order |
| SpecArrival.ApplyRanked | src/book.rs:120-303 | every command keeps both sides in strict order of price and then arrival; only an order that rests or is requoted gets a new arrival |
| SpecArrival.RunInArrivalOrder | src/book.rs:90-116 | time priority over whole runs: after any run from an empty book, of two orders on a side the one with the better price, and at one price the one that arrived by the earlier command, is ahead |
| SpecArrival.RankedUnique | src/book.rs:538-540 | orders and arrivals leave no choice: they determine the sequence of a side |
| SpecArrival.NoOvertaking | src/book.rs:218-303 | over any run, two orders at one price keep their relative order and their price while both stay and neither re-enters nor loses priority by a Replace |
| SpecProperties.CrossIsPriorityFill | src/book.rs:324-402 | price-time priority in closed form: the trades are a prefix of the best-first FIFO order at each maker's price, all but the last filled and closed right after their trade, the last kept in place with what is left |
| SpecProperties.CrossTrades | src/book.rs:305-403 | a match trades exactly min(wanted, available within the bound), and the opposite side loses exactly that |
| SpecProperties.FokDecisionExact | src/book.rs:508-515 | the fill-or-kill decision over wrapping u64 totals is right iff the available quantity is below 2^64 or its wrapped value still covers the order |
| SpecProperties.FokWrapsWitness | src/book.rs:163-165 | after a run that rests two asks of 2^63 the fillable quantity wraps to 0, so a fill-or-kill order for 1 is refused although 2^64 is there |
| SpecProperties.FokAllOrNothing | src/book.rs:154-189 | an admitted fill-or-kill order trades its whole quantity and closes filled; a refused New changes only `seq` |
| SpecProperties.PostOnlyNeverTrades | src/book.rs:156-162 | a post-only limit order rests whole or is refused; it never trades |
| SpecConservation.ApplyConserves | src/book.rs:120-303 | one command: resting plus entered quantity is resting plus withdrawn plus twice traded quantity |
| SpecConservation.RunConserves | src/book.rs:90-116 | the same over every run |
| SpecEvents.ApplyFollows | src/book.rs:525-534 | folding a command's events over the live quantities gives the live quantities after it |
| SpecEvents.RunFollows | src/book.rs:525-534 | folding the events of any run gives exactly the live ids and their quantities |
| SpecEvents.DescribesUnique | src/book.rs:525-534 | the map from live ids to quantities is determined by the book, so the fold reconstructs it |
| SpecRuns.RunFromEmpty | src/book.rs:42-116 | every run from an empty book: well formed and uncrossed, `seq` dense from 1, events reconstruct the live orders, quantity conserved |
| SpecRuns.RunIndexIndependent | src/index.rs:1-11 | for commands whose prices both kinds accept, ladder and tree configurations give the same events and orders |
| SpecConfig.WellFormedUnder | src/book.rs:562-573 | a book's orders make a well-formed book under another configuration iff that one has the capacity and, if a ladder, the range for them; so always under its own |
| SpecConfig.RunSameRules | src/snapshot.rs:3-5 | under a configuration with the same price range and capacity every run gives the same events and orders |
| SpecConfig.ContinuesIff | src/snapshot.rs:123-131 | a book and its orders under another configuration emit the same events for every later run iff the two accept the same prices and as many orders |
| SpecConfig.OwnConfigWitness | src/engine.rs:55-58 | a book registered with its own range [0, 10] and rebuilt under the default [0, 100] accepts a bid at 50 that it refused before |
| Masks.MaskIsMod | src/ordermap.rs:45-54 | bitwise and with `cap - 1` is the remainder for a power-of-two capacity |
| Masks.NextPowerOfTwo | src/ordermap.rs:46-46 | the result is a power of two, at least `n`, and no smaller one is |
| Masks.Capacity | src/ordermap.rs:45-54 | a power of two, at least 16 and at least twice the live orders |
| OrderMaps.OrderMap.WithCapacity | src/ordermap.rs:45-54 | the new table is valid and empty, at most half full at capacity |
| OrderMaps.OrderMap.Probe | src/ordermap.rs:63-77 | the probe loop stops at the key's slot, or at an empty slot only if the key is absent, for any hash |
| OrderMaps.OrderMap.Find | src/ordermap.rs:63-77 | the slot of the key iff it is mapped |
| OrderMaps.OrderMap.Contains | src/ordermap.rs:80-82 | true iff the key is mapped |
| OrderMaps.OrderMap.Get | src/ordermap.rs:85-87 | the mapped value iff the key is mapped |
| OrderMaps.OrderMap.ValAt | src/ordermap.rs:91-93 | the value at the slot a key was found in |
| OrderMaps.OrderMap.SetValAt | src/ordermap.rs:95-100 | through a slot that is still the key's, the map changes at that key only |
| OrderMaps.OrderMap.Insert | src/ordermap.rs:114-131 | the map gains or overwrites the key, the old value is returned, no existing key moves |
| OrderMaps.OrderMap.CloseHole | src/ordermap.rs:144-168 | the backward shift ends with a valid table over the same keys and values: nothing lost, every entry reachable from its home, wrap-around included |
| OrderMaps.OrderMap.Remove | src/ordermap.rs:135-169 | exactly the old map without the key; `removes` counts real removals; without one no slot moves |
| Probing.SomeEmpty | src/ordermap.rs:45-54 | a table with fewer keys than slots has an empty slot, so probing ends |
| Probing.ProbeAbsent | src/ordermap.rs:69-71 | an empty slot at the end of a key's probe path proves the key absent |
| Probing.FillOk | src/ordermap.rs:120-124 | filling that slot keeps every entry reachable |
| Probing.HoleSkips | src/ordermap.rs:141-160 | an entry whose home lies in (hole, j] leaves the hole where it is |
| Probing.HoleMoves | src/ordermap.rs:155-166 | any other entry may be moved into the hole, which then opens at its slot |
| Probing.HoleCloses | src/ordermap.rs:150-152 | an empty slot ahead means the hole breaks no probe path |
| Chunks.LocRoundTrip | src/store.rs:66-74 | a loc determines chunk and slot and fits a u32 below 2^29 chunks |
| Chunks.LocInjective | src/store.rs:66-74 | different slots have different locs |
| StoreState.Partition | src/store.rs:101-110 | the chunks of all level chains and of the free list partition `[0, used)`: no chunk is in two places |
| StoreUnlink.BypassedOk | src/store.rs:165-184 | unlinking a dead chunk keeps all chains linked, disjoint and acyclic, and puts it on the free list |
| StoreLink.AppendedOk | src/store.rs:196-206 | linking a fresh chunk at a level's tail keeps the same |
| StoreState.LevelFacts | src/store.rs:76-99 | a level has a chain iff it has orders iff its head is a chunk |
| Stores.Store.constructor | src/store.rs:113-122 | a new store is valid, with no chunk handed out |
| Stores.Store.Prefault | src/store.rs:124-132 | all chunks committed, no order or queue changed |
| Stores.Store.AllocChunk | src/store.rs:139-163 | while live is below capacity a chunk exists: it is unlinked, empty, below `used`, and no order changes |
| Stores.Store.DropChunk | src/store.rs:165-184 | the dead chunk is gone from its level and free; every queue and every loc reads the same |
| Stores.Store.Push | src/store.rs:186-217 | the order is last in its level's queue, at a loc that was dead; other queues and slots are untouched; the level's total stays the wrapped sum |
| Stores.Store.Unlink | src/store.rs:219-233 | exactly that order leaves its queue and its slot dies; everything else stays |
| Stores.Store.SetQty | src/book.rs:243-257 | a decrease in place changes one quantity in its old queue position and the level total |
| Stores.Store.MatchHead | src/book.rs:345-388 | the first live order of the queue gives up min(want, its quantity); filled makers leave the queue, a dead chunk is freed; the scan for a live slot stays below `tail` |
| Stores.Store.IterLevel | src/store.rs:235-250 | the locs of a level, in queue order |
| Stores.AllUsedLive | src/store.rs:139-150 | with an empty free list the chunks in use are no more than the live orders, so `used` never passes the capacity |
| Words.ScanUp | src/index.rs:216-220 | trailing zeros of a masked word find the lowest set bit at or above a position |
| Words.ScanDown | src/index.rs:235-239 | leading zeros of a masked word find the highest set bit at or below a position |
| Bitmap.MarkBitmap | src/index.rs:175-176 | setting the two bits marks exactly one more index and keeps summary bit w set iff word w is non-zero |
| Bitmap.ClearBitmap | src/index.rs:198-202 | clearing them unmarks exactly that index and keeps the same |
| Ladders.CursorsFit | src/index.rs:178-184 | cursors cast to u32 tell all indices of a ladder apart from each other and from NIL iff the span is at most 2^32 - 1 |
| Ladders.LadderIndex.constructor | src/index.rs:137-148 | a new ladder of a span whose cursors fit is valid and has no marked price; an inverted range gives a span of 1 |
| Ladders.LadderIndex.LevelMut | src/index.rs:155-165 | the level of a marked price, none if it is empty or the price lies outside the range, on either side |
| Ladders.LadderIndex.SetLevel | src/index.rs:155-159 | writing through the borrowed level changes that level only |
| Ladders.LadderIndex.LevelInsert | src/index.rs:167-188 | the price is marked, and the cached cursor stays the best marked index |
| Ladders.LadderIndex.UnlinkLevel | src/index.rs:190-209 | an emptied price is unmarked, and the cursor is still the best marked index, or NIL iff none |
| Ladders.LadderIndex.Rescan | src/index.rs:211-253 | the nearest marked index moving inward, or NIL iff there is none |
| Ladders.LadderIndex.RescanUp | src/index.rs:216-234 | for asks, through words and summary |
| Ladders.LadderIndex.RescanDown | src/index.rs:235-251 | for bids, through words and summary |
| Ladders.LadderIndex.BestPrice | src/index.rs:255-263 | the best marked price, none iff nothing is marked |
| Ladders.LadderIndex.Len | src/index.rs:98-104 | the number of marked prices |
| Ladders.LadderIndex.SumRange | src/index.rs:265-287 | the masked word walk gives the wrapped sum of the totals at marked prices in the range; a low end below the base gives 0, a high end there the sum from the low end on |
| Ladders.LadderIndex.SumWord | src/index.rs:277-283 | one masked word contributes exactly its levels in range |
| Ladders.LadderIndex.Depth | src/index.rs:299-332 | the strictly best-first list of the first n marked prices with totals; all of them at n = 0 |
| LevelView.DepthUnique | src/index.rs:106-118 | two indexes with the same levels give the same depth list |
| PriceIndexes.TreeIndex.BestPrice | src/index.rs:349-355 | the best key of the ordered map |
| PriceIndexes.TreeIndex.SumRange | src/index.rs:90-96 | the fold over the key range gives the same wrapped sum as the ladder |
| PriceIndexes.TreeIndex.Depth | src/index.rs:107-118 | the first n keys best first with totals |
| PriceIndexes.PriceIndex.BestPrice | src/index.rs:31-38 | one contract for both kinds: best marked price |
| PriceIndexes.PriceIndex.LevelMut | src/index.rs:40-56 | one contract for both kinds: the level iff marked, where a ladder hides one that is still empty |
| PriceIndexes.PriceIndex.LevelInsert | src/index.rs:68-75 | get or create the level at a price |
| PriceIndexes.PriceIndex.UnlinkLevel | src/index.rs:77-88 | drop the bookkeeping of a level iff it emptied; an ordered map ignores a price without one |
| PriceIndexes.PriceIndex.SumRange | src/index.rs:90-96 | wrapped sum of the level totals in the range; a ladder counts nothing from below its base |
| PriceIndexes.PriceIndex.Depth | src/index.rs:106-118 | both kinds agree for n >= 1 |
| PriceIndexes.DepthZeroDiffers | src/index.rs:107-118 | at n = 0 they agree iff the side is empty |
| Glue.LiveInSide | src/book.rs:660-680 | a live slot's order is in its side's sequence and its level is marked |
| Glue.OrderMapped | src/book.rs:670-676 | every order on the book is mapped to the slot that holds it |
| Glue.BestGlue | src/index.rs:31-38 | the best marked price is the first order's price |
| Glue.SumViewIsInRange | src/book.rs:507-515 | summing wrapped level totals over a price range gives the wrapped quantity resting there |
| BookState.FillableOk | src/book.rs:507-523 | over the index's range bounds that is the wrapped quantity that crosses the price |
| BookState.FindMapped | src/book.rs:192-195 | the id map finds exactly the orders of the reference book |
| BookState.StepOk | src/book.rs:632-690 | a store operation at one level keeps every other level and the other side in agreement |
| BookState.PutBack | src/book.rs:344-398 | a level that is returned, or dropped once empty, restores full agreement |
| BookState.FirstInHand | src/book.rs:340-346 | while the best level has orders, its first live order is the side's first |
| BookState.ProgressMaker | src/book.rs:345-394 | one maker of the loop is one step of the reference match |
| BookOrder.WellFormedFrom | src/book.rs:630-691 | a book whose parts agree has disjoint ids on its two sides and is well formed once uncrossed |
| OrderBooks.VecSink.OnEvent | src/sink.rs:49-54 | the numbered event is appended |
| OrderBooks.OrderBook.constructor | src/book.rs:42-61 | a new book, its ladder cursors fitting, is valid and stands for the empty reference book |
| OrderBooks.OrderBook.Emit | src/book.rs:525-529 | `seq` grows by one and the sink gains the pair of `old(seq) + 1` and the event |
| OrderBooks.OrderBook.Reject | src/book.rs:531-534 | exactly one rejection is emitted |
| OrderBooks.OrderBook.BorrowLevel | src/book.rs:343-346 | the level of a price with orders, in hand: its index entry may now lag behind the store |
| OrderBooks.OrderBook.BorrowOrCreate | src/book.rs:408-416 | the level a resting order goes to, marked before it is filled |
| OrderBooks.OrderBook.ReturnLevel | src/book.rs:395-398 | giving the level back restores agreement; an emptied one is unmarked |
| OrderBooks.OrderBook.TakeFromHead | src/book.rs:345-388 | the first order of the level gives up its share; a filled one leaves store and map, with any id reserved or none |
| OrderBooks.OrderBook.MatchMaker | src/book.rs:345-394 | one maker: new state and emitted events are the reference's |
| OrderBooks.OrderBook.MatchInHand | src/book.rs:343-395 | the inner loop: matches the level until nothing is left to match or it has emptied |
| OrderBooks.OrderBook.MatchLevel | src/book.rs:342-401 | one pass of the outer loop, which removes at least one order unless matching is done |
| OrderBooks.OrderBook.Cross | src/book.rs:305-403 | the whole match: remaining quantity, opposite side and events equal the reference match; without a removal no map slot moves |
| OrderBooks.OrderBook.PushOrder | src/book.rs:405-416 | level insert and push put the order behind every order at least as good on its side |
| OrderBooks.OrderBook.TakeOff | src/book.rs:200-209 | unlinking removes exactly that order from its side |
| OrderBooks.OrderBook.Rest | src/book.rs:405-417 | a resting order is inserted and mapped |
| OrderBooks.OrderBook.BestPrice | src/book.rs:577-583 | the first order's price on either side |
| OrderBooks.OrderBook.WouldCross | src/book.rs:499-505 | true iff the price reaches the best opposite order |
| OrderBooks.OrderBook.Fillable | src/book.rs:507-515 | the wrapped quantity resting within the price on the opposite side |
| OrderBooks.OrderBook.CheckNew | src/book.rs:132-169 | the reference's refusal of a New, which `SpecCommands.NewRefusals` says reason by reason |
| OrderBooks.OrderBook.Admit | src/book.rs:171-189 | an admitted New matches, then rests, closes filled or expires, as the reference does (`SpecCommands.MarketNew`, `SpecCommands.LimitNew`) |
| OrderBooks.OrderBook.NewOrder | src/book.rs:120-189 | state and events of a New equal the reference's |
| OrderBooks.OrderBook.Cancel | src/book.rs:191-216 | state and events of a Cancel equal the reference's (`SpecCommands.CancelDoes`) |
| OrderBooks.OrderBook.Reduce | src/book.rs:243-257 | a decrease keeps the order's place |
| OrderBooks.OrderBook.Reserve | src/book.rs:265-273 | the replaced order is off the book while its id stays mapped |
| OrderBooks.OrderBook.RestReplaced | src/book.rs:286-296 | through the earlier slot when nothing was removed, else by probing, the id is mapped to its new live slot at the back of the new level |
| OrderBooks.OrderBook.Settle | src/book.rs:276-303 | after the match the id is forgotten if filled, else rests again |
| OrderBooks.OrderBook.Requote | src/book.rs:261-303 | a Replace that loses priority: state and events equal the reference's |
| OrderBooks.OrderBook.Replace | src/book.rs:218-303 | state and events of a Replace equal the reference's (`SpecCommands.ReplaceKeepsPlace`, `SpecCommands.ReplaceLosesPlace`) |
| OrderBooks.OrderBook.Apply | src/book.rs:70-89 | refinement: from every valid book, every command reaches the reference's next book with exactly its events, densely numbered |
| OrderBooks.OrderBook.ApplyBatch | src/book.rs:91-116 | so does every run: the sink grows by exactly the run's events, entry i under `old(seq) + 1 + i`, and `seq` by their count; a prefaulted book never grows |
| OrderBooks.RunNew | src/book.rs:525-529 | after any run of a new book the i-th event at the sink is the run's i-th event under number i + 1, and `seq` is their count |
| OrderBooks.OrderBook.RestingOrders | src/book.rs:538-560 | bids then asks, best price first, time order at each price |
| OrderBooks.OrderBook.SideOrders | src/book.rs:543-558 | reading the depth levels chunk by chunk gives the side's whole sequence |
| BookOrder.ByLevelAll | src/book.rs:538-540 | the queues of all levels, best first, are the side's sequence |
| OrderBooks.Restore | src/book.rs:562-573 | inserting different orders that fit, crossed or not and of any time in force, gives a book whose parts all agree, with the given sequence number; it is well formed iff the orders are uncrossed and gtc or post_only |
| BookOrder.LoadedBook | src/book.rs:538-540 | inserting a book's orders in book order reproduces the book |
| BookOrder.BookLoadable | src/book.rs:562-573 | a book's orders can be inserted under any configuration iff it can hold them, and that gives a well-formed book with the same two sides |
| OrderBooks.Recover | src/book.rs:541-573 | restoring from a book's resting orders, under any configuration that can hold them, gives a valid book for the same reference book under that configuration |
| OrderBooks.ContinueRecovered | src/book.rs:536-573 | for any later commands the restored book emits the events of that reference book: exactly those of the original if it was restored under its own configuration or one with the same rules |
| OrderBooks.OrderBook.LevelTotal | src/book.rs:585-592 | wrapped quantity resting at exactly the price, 0 without a level |
| OrderBooks.OrderBook.Order | src/book.rs:594-605 | id, side, price and quantity of the order with the id, none iff neither side has one |
| OrderBooks.OrderBook.OrderCount | src/book.rs:607-609 | the number of live orders |
| OrderBooks.OrderBook.LevelCount | src/book.rs:611-616 | the number of different prices with orders |
| OrderBooks.OrderBook.Depth | src/book.rs:618-623 | the first n levels best first with wrapped totals, computed from the order sequence; n = 0 per index kind |
| OrderBooks.OrderBook.Prefault | src/book.rs:63-68 | all storage committed, the book unchanged |
| IndexEquivalence.RunBoth | src/index.rs:1-11 | a ladder book and a tree book emit identical event streams for commands both accept, whatever their hashes |
| CheckInvariants.CheckSlots | src/book.rs:664-677 | live slots lie in [head, tail), are mapped to their own locs and count to `live` |
| CheckInvariants.CheckLevel | src/book.rs:653-685 | links both ways, keys, chunk liveness and the level total hold along the chain |
| CheckInvariants.CheckLadder | src/book.rs:642-651 | bit iff non-empty level, and as many of these as marked prices |
| CheckInvariants.CheckSide | src/book.rs:641-686 | every level of a side passes; all its orders and all its chunks are counted once |
| CheckInvariants.ChunksInUse | src/store.rs:252-262 | `used` less the free list |
| CheckInvariants.UsedSplit | src/book.rs:687-690 | bid chunks, ask chunks and free chunks add up to `used` |
| CheckInvariants.CheckInvariants | src/book.rs:630-691 | no test of the invariant check fails on any valid book; it counts every resting order and every chunk not on the free list |
| JsonFlat.FindIsFirst | src/jsonflat.rs:10-10 | the key search finds the first occurrence, and finds one whenever there is one |
| JsonFlat.TrimOk | src/jsonflat.rs:17-17 | trimming takes off exactly the white space at both ends |
| JsonFlat.ParseDecimal | src/jsonflat.rs:25-27 | a printed number parses back iff it is below 2^64 |
| JsonFlat.ParseSigned | src/jsonflat.rs:21-23 | a printed signed number parses back iff it fits an i64 |
| JsonFlat.DecimalDenotes | src/types.rs:143-191 | the decimal of a number is its digits 0 to 9 in base ten, without leading zeros |
| JsonFlat.ParseU64Exact | src/jsonflat.rs:25-27 | a text parses as a u64 iff it is digits with an optional plus sign whose base-ten value is below 2^64; leading zeros are accepted |
| JsonFlat.ParseI64Exact | src/jsonflat.rs:21-23 | a text parses as an i64 iff it is digits with an optional sign whose value fits; no sign alone |
| JsonFlat.GetSpaced | src/jsonflat.rs:15-18 | white space around an unquoted value is dropped, whatever comes before the first occurrence of the key and after the value |
| JsonFlat.GetObjectField | src/jsonflat.rs:8-19 | reading any key of a flat object of plain fields gives the value of the first field under it, or nothing |
| CommandText.WriteInner | src/types.rs:131-191 | what is appended is the literal canonical line, with or without a symbol, and the flat object of the command's fields |
| CommandText.CanonicalIs | src/types.rs:143-191 | the fields of a command give the literal line: keys cmd, symbol, order_id, side, otype, price, qty, tif in this order, with the literal names of sides, order types and times in force |
| CommandText.ParseExact | src/jsonflat.rs:30-69 | a flat object of plain fields parses as a given command iff its first cmd, side, otype and tif fields are the literal names of that command and its first order_id, price and qty fields denote its numbers in range; missing or malformed fields give no command |
| CommandText.ParseInvertsPrint | src/jsonflat.rs:30-69 | parsing a command's canonical line, with or without a symbol, gives the command back |
| Snapshot.LinesOfText | src/snapshot.rs:72-86 | splitting a document into lines gives back the lines written |
| Snapshot.LinesNextCr | src/snapshot.rs:72-86 | a carriage return before the line feed is dropped |
| Snapshot.HeaderDefaults | src/snapshot.rs:75-83 | a header with the format only gives the default range, capacity and index |
| Snapshot.HeaderParses | src/snapshot.rs:73-83 | a written header gives back the configuration |
| Snapshot.HeaderIs | src/snapshot.rs:36-48 | the header's literal line |
| Snapshot.BookHeadIs | src/snapshot.rs:16-20 | the book record's literal line |
| Snapshot.RestingIs | src/snapshot.rs:21-31 | the order record's literal line, with the literal names of sides and times in force |
| Snapshot.HeaderExact | src/snapshot.rs:73-83 | a flat header parses as a given configuration iff its format is matcher-snap/1 and each part is what its field denotes, or the default without a readable one |
| Snapshot.BookExact | src/snapshot.rs:86-92 | a book record opens a block with the symbol cut to 32 bits and the sequence number, 0 for what is missing |
| Snapshot.OrderExact | src/snapshot.rs:93-117 | an order record adds the order its fields denote to the last block |
| Snapshot.OrderMalformed | src/snapshot.rs:93-117 | without a block, or when the fields denote no order, there is no result |
| Snapshot.OtherExact | src/snapshot.rs:86-118 | nor for a record that is neither |
| Snapshot.Parse | src/snapshot.rs:69-121 | the line loop computes the fold of the document's lines; none where the source panics |
| Snapshot.ParseInvertsWrite | src/snapshot.rs:69-121 | parsing a written document gives back the configuration and every book's symbol, sequence number and orders in order |
| SnapshotStore.WriteHeader | src/snapshot.rs:36-48 | what is appended is the header's literal line with the default configuration's numbers |
| SnapshotStore.WriteBookLine | src/snapshot.rs:16-20 | what is appended is the book record's literal line |
| SnapshotStore.WriteOrder | src/snapshot.rs:21-31 | what is appended is the order record's literal line |
| SnapshotStore.WriteBook | src/snapshot.rs:14-32 | a book's lines carry its sequence number and its orders in book order |
| SnapshotStore.WriteEngine | src/snapshot.rs:34-54 | what is appended is the engine's document: the header, then every book once in ascending symbol order |
| SnapshotStore.RestoreEngine | src/snapshot.rs:123-131 | every block of different orders that fit becomes a book holding them, well formed iff they are uncrossed and gtc or post_only; of two blocks with one symbol the later counts |
| SnapshotStore.SaveAndRestore | src/snapshot.rs:1-5 | writing, parsing and rebuilding books of any configurations whose orders the default can hold gives, per symbol, a valid book with the same orders and sequence number under the default; the same reference book iff the default was its own |
| SnapshotStore.DocumentSame | src/snapshot.rs:14-54 | books that agree on orders and sequence numbers have one document, whatever their configurations |
| SnapshotStore.SaveAgain | src/snapshot.rs:4-5 | and writing the rebuilt books gives the same document, for books of any configurations whose orders the default can hold |

## Left out

- OrderBooks.OrderBook.Emit: `seq` is an unbounded number; the source's u64 counter would wrap after 2^64 events. Snapshot documents require it below 2^64.
- OrderBooks.OrderBook.ApplyBatch: the look-ahead branch only issues memory hints, so the batch is the plain loop (src/book.rs:97-116, src/book.rs:419-487).
- OrderMaps.OrderMap.Remove: `removes` and `len` are unbounded; the 64-bit wrap of `removes` is not modelled. The hash is an arbitrary function, so the multiplicative mix itself (src/ordermap.rs:30-36) is not modelled.
- OrderBooks.OrderBook.TakeFromHead: a filled maker leaves the id map before its trade is emitted, where the source emits first; the sink sees the same events in the same order.
- SnapshotStore.SaveAndRestore: a book whose orders the default configuration cannot hold (too many, or outside its ladder) makes the rebuild panic; the panic is not modelled. `BookOrder.BookLoadable` says exactly which books these are, `SpecConfig.ContinuesIff` exactly when the rebuilt book behaves like the saved one, and `SpecConfig.OwnConfigWitness` gives one that does not.
- OrderBooks.Restore: lists with one id twice or a quantity of 0, which the source rules out by a debug assertion or never writes.
- SnapshotStore.RestoreEngine: the empty book that is registered first and replaced at once is not modelled, and the engine is the map from symbols to books.
- Snapshot.ParseInvertsWrite: documents the writers produce; a malformed document is modelled as no result, not as the panic's message.
- Ladders.LadderIndex.constructor: spans of 2^32 ticks and more, where a cursor is cut to 32 bits; `Ladders.CursorsFit` shows that this is exactly where cursors stop being faithful.
- OrderBooks.OrderBook.constructor: spans of 2^32 ticks and more, for the same reason.
- Engine routing and its symbol hasher (src/engine.rs): a thin wrapper over a standard map.
- Journals, sinks other than the recording one, all binaries and benchmarks: input and output.
- Printing and folding of events (src/types.rs:264-391): no parser inverts the first, and the second is a benchmark checksum.
- Cache-line layout, padding and reservation policy of vectors; only lengths are kept.
- The inner structure of the standard ordered map: the tree index is a finite map read in key order.
