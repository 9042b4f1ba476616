# Trading gateway: order book, log queue and message framing

A verification project for the market data and order gateway of CTrade. It models the parts whose
correctness is not visible in one function: a five-level price ladder that is kept beside the orders
it summarises, a lock-free log queue, the byte encoding of log lines, a rate limiter, a linked
queue, and the two text protocols towards the order manager. `dafny verify dfyconfig.toml` checks
the whole project.

## How the models are laid out

| component | modules |
|---|---|
| price ladder and order store | `Ladder` (a side's levels on values), `BestLevels` (the best prices of a set), `MarketDepth` and `SlotArrays` (the slot arrays, in place), `OrderBook` (orders and levels on values), `LiveOrders` (which orders a run leaves), `LadderLaw` (what runs guarantee), `BestFiveLaw` (when exactly the best five are shown), `SymbolStore` and `MarketStore` (the stores that own maps and arrays), `PositionLadder` (the ladder that searches for the position) |
| guaranteed log queue (`QueueBuffer`) | `LogQueue` (the steps), `LogQueueInvariant`, `LogQueueWrite`, `LogQueueRead`, `LogQueueOrder` (what each step keeps), `LogQueueTheorems`, `LogQueueDrain`, `LogQueueProgress` (no deadlock) |
| log ring (`RingBuffer`) | `RingQueue` |
| log lines (`NanoLogLine`) | `NanoLine` (records and decoder), `LineBuffer` (the growing buffer) |
| throttle | `SlidingWindow` (the rule on an unbounded log), `Throttle` (circular array and polling loop) |
| `LockFreeQueue` | `LinkedQueue` |
| FIX printer and parser | `FixText` (the text format), `FixReading` (what the parser reads, without its loop), `FixMessage` (the two classes) |
| framing of the order manager's stream | `OmsFraming` (what a split is), `OmsReceiver` (the receiver), `OmsMessages` (printed messages on the stream) |
| shared | `Strings`, `Wrappers` |

Code that changes objects or arrays is a class or a method over arrays, proved to refine a function on
values; the laws are lemmas about those functions. Protocols between threads are state machines: an
action is one access to shared memory, a run is any sequence of enabled actions, and the theorems are
about every run. What a state remembers of pushes and pops is tied to the actions of the run, so that
the theorems speak of the calls made and not of the state's own record.

Choices that matter when reading the contracts:

- Prices are `real`. Quantities are `int`; where the code stores them in 32 bits the conversion is written out (`Ladder.Narrow`).
- A feed is lawful (`LadderLaw.Lawful`) when prices and quantities are positive and each NEW keeps the store in agreement; `OrderBook.NewKeepsAgreement` shows that this condition is exact.
- "Always the best five" is not a law of the live ladder, because an insert drops slot 4 whatever the new price is, and a delete does not bring back a price that was dropped. `LadderLaw.RunLaw` and `LadderLaw.LadderIsBest` state how much of it holds in every run; `BestFiveLaw.UpdateKeepsBest` and `BestFiveLaw.RunShowsBest` state exactly which updates keep it.
- In `LogQueue`, `RingQueue` and `LinkedQueue` memory is sequentially consistent and counters do not wrap.
- In `Throttle` the clock is a parameter, an arbitrary sequence of readings; in `NanoLine` the text of numbers and the date are parameters.
- The receiver looks for `0=000`, five characters: `1 + "10=000"` in the code is pointer arithmetic. A message ends one character later.

## Model

| member | source | states |
|---|---|---|
| MarketDepth.FindPrice | CTrade/Market/cTrader_Market/marketDataMessage.cpp:568-581 | finds the first slot with the price if there is one; reports 0 otherwise, not a position to insert at |
| MarketDepth.StdSort | CTrade/Market/cTrader_Market/marketDataMessage.cpp:555-558 | leaves a permutation of the slots in descending price order, which is all `std::sort` promises |
| MarketDepth.SortUnique | CTrade/Market/cTrader_Market/marketDataMessage.cpp:555-558 | when equal prices mean equal slots, a permutation in order is unique, so the unspecified sort has one result |
| MarketDepth.BubblePass | CTrade/Market/cTrader_Market/marketDataMessage.cpp:632-639 | one inner loop permutes the priced slots among themselves, moves no empty slot, and settles one more slot from the end |
| MarketDepth.BubbleSort | CTrade/Market/cTrader_Market/marketDataMessage.cpp:630-640 | the whole loop puts the priced slots in ascending order, keeps them a permutation, and leaves the empty ones where they are |
| MarketDepth.MarketData5Depth.InsertBuyDepth | CTrade/Market/cTrader_Market/marketDataMessage.cpp:538-560 | on valid slots a new price becomes a level in its place and a full ladder first loses its last level; a price already there changes nothing |
| MarketDepth.MarketData5Depth.InsertSellDepth | CTrade/Market/cTrader_Market/marketDataMessage.cpp:617-641 | the same for the sell side, through the hand-written sort |
| MarketDepth.MarketData5Depth.UpdateBuyDepth | CTrade/Market/cTrader_Market/marketDataMessage.cpp:399-411 | only the quantity of that price's level changes; an absent price changes nothing |
| MarketDepth.MarketData5Depth.UpdateSellDepth | CTrade/Market/cTrader_Market/marketDataMessage.cpp:419-439 | the same for the sell side |
| MarketDepth.MarketData5Depth.DeleteBuyDepth | CTrade/Market/cTrader_Market/marketDataMessage.cpp:363-375 | takes that price's level out and closes the gap |
| MarketDepth.MarketData5Depth.DeleteSellDepth | CTrade/Market/cTrader_Market/marketDataMessage.cpp:381-391 | the same for the sell side |
| MarketDepth.MarketData5Depth.DeleteBuyDepthViaId | CTrade/Market/cTrader_Market/marketDataMessage.cpp:584-596 | an order's quantity leaves its level: the level goes when it is exactly that quantity, shrinks when it is more, stays when it is less |
| MarketDepth.MarketData5Depth.DeleteSellDepthViaId | CTrade/Market/cTrader_Market/marketDataMessage.cpp:598-610 | the same for the sell side |
| MarketDepth.MarketData5Depth.CheckCorrectnessBuy | CTrade/Market/cTrader_Market/marketDataMessage.cpp:498-513 | true exactly when every priced slot is below all slots before it and no slot without quantity comes before one that has some |
| MarketDepth.MarketData5Depth.CheckCorrectnessSell | CTrade/Market/cTrader_Market/marketDataMessage.cpp:515-530 | true exactly when every slot with quantity is above all slots before it and none of them lacks quantity |
| OrderBook.TotalRemove | CTrade/Market/cTrader_Market/marketDataStore.h:317-358 | the total at a price does not depend on the order in which the map is walked |
| OrderBook.TotalSign | CTrade/Market/cTrader_Market/marketDataStore.h:283-315 | with positive orders a price is live exactly when its total is positive |
| OrderBook.PhantomLevel | CTrade/Market/cTrader_Market/marketDataStore.cpp:195-222 | a NEW that repeats a live id at a price that is not live leaves a level no order stands behind |
| OrderBook.NewKeepsAgreement | CTrade/Market/cTrader_Market/marketDataStore.cpp:191-224 | a NEW keeps every level equal to the sum of the live orders at its price if and only if its id is fresh on that side or its price is live there, and the level written fits 32 bits |
| OrderBook.DropKeepsAgreement | CTrade/Market/cTrader_Market/marketDataStore.h:231-281 | a DELETE always keeps that agreement, and a level goes exactly when the last order at its price does |
| LiveOrders.OrdersOfRun | CTrade/Market/cTrader_Market/marketDataStore.h:202-281 | after any run an id is live on a side with an order if and only if some NEW of that id and side carries the order, it is the first since the id was last gone, and no later DELETE reaches the side; a sell order is reached only if the id is not on the buy side then; said by positions in the run |
| LiveOrders.LiveIsSince | CTrade/Market/cTrader_Market/marketDataStore.cpp:344-348 | an id is live on a side if and only if some NEW of it there has not been followed by a DELETE that reaches the side |
| Ladder.InsertedLevels | CTrade/Market/cTrader_Market/marketDataMessage.cpp:538-560 | an insert of a price that is not shown leaves a sorted ladder of exactly the new level and the old first four |
| Ladder.UpdatedLevels | CTrade/Market/cTrader_Market/marketDataMessage.cpp:399-411 | an update changes the quantity of the price's level and no other, and brings no level |
| Ladder.ReducedLevels | CTrade/Market/cTrader_Market/marketDataMessage.cpp:584-596 | an order's deletion leaves all other levels, and of its own level nothing, the difference, or all, as it held exactly the order's quantity, more, or less |
| Ladder.NarrowWraps | CTrade/Market/cTrader_Market/marketDataMessage.cpp:827-830 | a quantity stored in 32 bits is the one signed 32-bit number that differs from it by a multiple of 2^32 |
| LadderLaw.RunLaw | CTrade/Market/cTrader_Market/marketDataStore.cpp:171-224 | after every run of updates the feed may send, both ladders agree with the live orders, and each live price that is not shown is beaten by at least 4 - d levels, d being the DELETEs that took the last order at a price with a level since the ladder last showed every live price |
| LadderLaw.LadderIsBest | CTrade/Market/cTrader_Market/marketDataMessage.cpp:538-661 | hence the first 4 - d slots are exactly the best 4 - d prices of the full order book, with their total quantities |
| BestFiveLaw.BestIsBeaten | CTrade/Market/cTrader_Market/marketDataMessage.cpp:538-661 | on a ladder that agrees with its orders, showing the sorted aggregate cut off behind five levels is the same as every missing price being beaten by five levels |
| BestFiveLaw.UpdateKeepsBest | CTrade/Market/cTrader_Market/marketDataStore.cpp:171-224 | from any state that shows the best min(5, live) prices, any update the feed may send keeps it so if and only if: a NEW is at a live price, or finds a free slot, or beats the last level; a DELETE does not take the last order at a shown price while some live price has no level |
| BestFiveLaw.RunShowsBest | CTrade/Market/cTrader_Market/marketDataStore.cpp:171-224 | a run shows the best prices throughout if and only if each of its updates meets that condition when it comes |
| BestFiveLaw.DeleteOpensGap | CTrade/Market/cTrader_Market/marketDataMessage.cpp:363-375 | after n >= 6 rising buy NEWs, all of which meet the condition, the DELETE of the best order leaves four levels and a live price without one, because no delete refills the ladder |
| LadderLaw.LadderIsAggregate | CTrade/Market/cTrader_Market/marketDataStore.h:202-358 | a side that never has more than five live prices shows exactly the sorted aggregate of its live orders |
| LadderLaw.PathIndependence | CTrade/Market/cTrader_Market/marketDataStore.h:202-358 | two such runs that leave the same live orders leave identical sides |
| LadderLaw.ResendChangesNothing | CTrade/Market/cTrader_Market/marketDataStore.h:202-208 | sending the NEW of a live order again changes neither orders nor ladder |
| SymbolStore.ScanPrice | CTrade/Market/cTrader_Market/marketDataStore.h:293-297 | the walk over the order map answers whether some live order has the price |
| SymbolStore.ScanTotal | CTrade/Market/cTrader_Market/marketDataStore.h:334-338 | the walk adds up to the total quantity at the price |
| SymbolStore.SymbolDataStore.AddUpdateNormalQty | CTrade/Market/cTrader_Market/marketDataStore.h:202-208 | a fresh id is stored, a known id keeps its first order, the other side is untouched |
| SymbolStore.SymbolDataStore.IsPriceNew | CTrade/Market/cTrader_Market/marketDataStore.h:283-315 | true exactly when the price is live on that side, despite the name |
| SymbolStore.SymbolDataStore.GetTotalQtyForPrice | CTrade/Market/cTrader_Market/marketDataStore.h:317-358 | returns the sum of all live orders at the price on that side |
| SymbolStore.SymbolDataStore.DeleteNormalQty | CTrade/Market/cTrader_Market/marketDataStore.h:231-281 | the order goes and its quantity leaves its level; an unknown id changes nothing |
| SymbolStore.SymbolDataStore.CheckBuySellViaId | CTrade/Market/cTrader_Market/marketDataStore.h:218-229 | the buy side is asked first; otherwise the sell side |
| SymbolStore.SymbolDataStore.ApplyNew | CTrade/Market/cTrader_Market/marketDataStore.cpp:191-224 | maps and slot arrays together become the new book: the two inverted names cancel, so a price that was not live is inserted and a live one updated |
| SymbolStore.SymbolDataStore.ApplyUpdate | CTrade/Market/cTrader_Market/marketDataStore.cpp:171-180 | maps and slot arrays are refined by the update on values, for every action |
| SymbolStore.ChecksPass | CTrade/Market/cTrader_Market/marketDataMessage.cpp:498-530 | slots that show levels which agree with the orders satisfy what the checks test, so in every lawful state both return true |
| MarketStore.MarketDataStore.UpdateMDForTT | CTrade/Market/cTrader_Market/marketDataStore.h:384-407 | a new symbol gets an empty book, a known one keeps its book, all others are unchanged |
| MarketStore.MarketDataStore.ApplyRecord | CTrade/Market/cTrader_Market/marketDataStore.cpp:91-102 | only the store of the record's symbol changes and is registered; an unknown symbol's record is dropped |
| MarketStore.MarketDataStore.MessageUpdatesProcessed | CTrade/Market/cTrader_Market/marketDataStore.h:412-427 | each registered symbol is sent exactly once with the levels of its book, nothing else is sent, and nothing stays registered |
| MarketStore.MarketDataStore.AddUpdateRecords | CTrade/Market/cTrader_Market/marketDataStore.cpp:66-76 | after a batch over any number of symbols each known symbol's book is the result of its own updates alone, and each touched symbol is sent once as it stands at the end |
| MarketStore.IsolatedStep | CTrade/Market/cTrader_Market/marketDataStore.cpp:91-98 | adding one record to a batch keeps every symbol's book a function of its own updates |
| MarketStore.OwnAt | CTrade/Market/cTrader_Market/marketDataStore.cpp:91-98 | each record of a symbol in a batch is, in its place, among the updates its book is made from |
| MarketStore.OwnFrom | CTrade/Market/cTrader_Market/marketDataStore.cpp:91-98 | and no other update is: the k-th comes from the symbol's k-th record |
| PositionLadder.SortedDepth.GetPosition | CTrade/Market/cTrader_Market/marketDataMessage.cpp:1068-1087 | the position is the number of levels that beat the price, and the level of the price when it is there |
| PositionLadder.SortedDepth.Insert | CTrade/Market/cTrader_Market/marketDataMessage.cpp:1039-1060 | a new level goes to its place, pushing out the last level of a full ladder, or nothing if it is worse than all of them |
| PositionLadder.SortedDepth.Update | CTrade/Market/cTrader_Market/marketDataMessage.cpp:889-897 | only the quantity of the price's level changes |
| PositionLadder.SortedDepth.Delete | CTrade/Market/cTrader_Market/marketDataMessage.cpp:853-865 | the level goes and the gap closes |
| PositionLadder.ShowsBest | CTrade/Market/cTrader_Market/MarketDepth_5.cpp:25-87 | for any depth, after any run the ladder is a sorted part of the full price map with equal quantities, and its first N - d levels are exactly the best N - d prices, d being the deletions of a price with a level since it last showed every price |
| PositionLadder.BestUnderInserts | CTrade/Market/cTrader_Market/MarketDepth_5.cpp:186-280 | without deletions it is exactly the best N of the full price map |
| PositionLadder.MapOfRun | CTrade/Market/cTrader_Market/MarketDepth_5.cpp:25-87 | the full price map has a quantity for a price if and only if the last operation on that price gave it that quantity; read off the run by position |
| PositionLadder.InsertedLevels | CTrade/Market/cTrader_Market/marketDataMessage.cpp:1039-1060 | an insertion brings the level of its price; a level is lost only from a full ladder, one, and all that stay beat it |
| PositionLadder.OverwrittenLevels | CTrade/Market/cTrader_Market/marketDataMessage.cpp:889-897 | after an update every price shown before is shown, the updated one with the new quantity, the others with theirs, and no other price |
| PositionLadder.RemovedLevels | CTrade/Market/cTrader_Market/marketDataMessage.cpp:853-865 | after a deletion the levels are exactly those shown before at other prices, with their quantities |
| LogQueueTheorems.StepKeepsInv | CTrade/Market/cTrader_Market/Nanolog.cpp:525-587 | every single shared-memory access of any producer or the consumer keeps the invariant of the queue |
| LogQueueTheorems.RunKeepsInv | CTrade/Market/cTrader_Market/Nanolog.cpp:525-587 | so does every run, of any length and interleaving, for any buffer size and any set of producers |
| LogQueueTheorems.PushedIsRun | CTrade/Market/cTrader_Market/Nanolog.cpp:525-534 | the history of a producer's pushes is the list of the lines of its push calls, read off the run |
| LogQueueTheorems.Delivery | CTrade/Market/cTrader_Market/Nanolog.cpp:481-500 | in every interleaving the lines popped are those of tickets 0, 1, ... in order, none lost, repeated or invented, and a producer's tickets carry the lines of its push calls in their order, all but the one still waiting for a ticket |
| LogQueueTheorems.TicketNumber | CTrade/Market/cTrader_Market/Nanolog.cpp:527-531 | ticket e * size + i is the draw of slot i of the e-th buffer |
| LogQueueTheorems.Switching | CTrade/Market/cTrader_Market/Nanolog.cpp:572-580 | at most one producer switches buffers, only once every slot of the buffer is written and no ticket is out; a ticket holder writes to the buffer of the current epoch, at the slot dealt to it there |
| LogQueueTheorems.TicketKeepsEpoch | CTrade/Market/cTrader_Market/Nanolog.cpp:527-535 | no step ends an epoch or changes a slot number while a ticket of it is out, so that buffer and slot are those of the ticket's own draw |
| LogQueueTheorems.IndexBound | CTrade/Market/cTrader_Market/Nanolog.cpp:527-541 | the write index stays below the buffer size plus the number of producers |
| LogQueueTheorems.Busy | CTrade/Market/cTrader_Market/Nanolog.cpp:536-541 | while the write index is past the end some producer is still placing its line or switching buffers, so the spinning producers are never all that is left |
| LogQueueTheorems.MutualExclusion | CTrade/Market/cTrader_Market/Nanolog.cpp:577-587 | the queue of buffers is touched by one thread at a time |
| LogQueueWrite.LastCount | CTrade/Market/cTrader_Market/Nanolog.cpp:486 | the count reaches the buffer size only when all slots have been drawn |
| LogQueueRead.NextLine | CTrade/Market/cTrader_Market/Nanolog.cpp:492-497 | a slot that the consumer finds ready holds the line of the next ticket |
| LogQueueDrain.TryPop | CTrade/Market/cTrader_Market/Nanolog.cpp:544-569 | with no push in progress a call terminates, and gives up only if no line is left |
| LogQueueDrain.Drain | CTrade/Market/cTrader_Market/Nanolog.cpp:702-706 | after any run that leaves every push returned, the final loop terminates having popped every ticket's line in order across buffers, and each producer's tickets carry exactly the lines of its push calls in order |
| LogQueueProgress.CanFinish | CTrade/Market/cTrader_Market/Nanolog.cpp:525-542 | no deadlock: every reachable state has a continuation without new pushes after which every push has returned |
| RingQueue.StepKeepsInv | CTrade/Market/cTrader_Market/Nanolog.cpp:410-433 | every lock operation, store and counter update keeps the ring's invariant |
| RingQueue.HistoriesAreRun | CTrade/Market/cTrader_Market/Nanolog.cpp:410-433 | the lines drawn and the number popped are those of the calls and clears of the run |
| RingQueue.Conservation | CTrade/Market/cTrader_Market/Nanolog.cpp:410-433 | in every interleaving the pushes completed in the run are as many as the pops plus the slots still written plus the overwritten; each is one of these, none is popped twice or both popped and overwritten, and each pop hands out the argument of its push call |
| RingQueue.MutualExclusion | CTrade/Market/cTrader_Market/Nanolog.cpp:352-366 | the spin lock keeps two threads out of one slot |
| RingQueue.FifoInWindow | CTrade/Market/cTrader_Market/Nanolog.cpp:410-433 | while pushes started never exceed pops by more than the ring's size, nothing is overwritten and the lines handed out are the arguments of the first push calls in ticket order |
| RingQueue.PopAnswer | CTrade/Market/cTrader_Market/Nanolog.cpp:420-433 | inside that window a pop takes a line exactly when the push next in ticket order is complete, and leaves empty-handed otherwise |
| RingQueue.PushAlone | CTrade/Market/cTrader_Market/Nanolog.cpp:410-418 | a push that runs uninterrupted on a free ring comes to its end, its slot standing for its line and what was unread there overwritten |
| RingQueue.PopAlone | CTrade/Market/cTrader_Market/Nanolog.cpp:420-433 | a pop that runs uninterrupted where something is written comes to its end with that push popped and its slot free |
| RingQueue.WindowIsTight | CTrade/Market/cTrader_Market/Nanolog.cpp:410-417 | for a ring of any size, that many pushes and one more can overwrite a line that is never popped |
| NanoLine.ScalarBack | CTrade/Market/cTrader_Market/Nanolog.cpp:105-119 | the bytes of any number, in two's complement where signed, read back as that number |
| NanoLine.TextEnds | CTrade/Market/cTrader_Market/Nanolog.cpp:180-190 | the decoder leaves a string's record exactly at its end if and only if the string has no NUL |
| NanoLine.RoundTrip | CTrade/Market/cTrader_Market/Nanolog.cpp:192-228 | wherever the decoder meets the records of an argument list it prints the arguments' texts one after the other and stops exactly behind them |
| NanoLine.LineRoundTrip | CTrade/Market/cTrader_Market/Nanolog.cpp:135-160 | a line's bytes print as its own date, level and arguments |
| NanoLine.ToString | CTrade/Market/cTrader_Market/Nanolog.cpp:90-103 | the names of the three levels by number, and XXXX for any other |
| NanoLine.RecordSize | CTrade/Market/cTrader_Market/Nanolog.cpp:112-119 | a character takes 2 bytes, a 32-bit number 5, every other number or literal 9, a string its length and 2, an empty or null string none |
| NanoLine.ShownWhole | CTrade/Market/cTrader_Market/Nanolog.cpp:163-190 | a string shows exactly its characters, whether pushed whole or one character at a time |
| NanoLine.ShownInPlace | CTrade/Market/cTrader_Market/Nanolog.cpp:162-170 | any other argument shows as the stream prints it, right between the texts of its neighbours |
| NanoLine.StringifyText | CTrade/Market/cTrader_Market/Nanolog.cpp:180-190 | prints everything up to the first NUL and says where that is |
| NanoLine.StringifyFrom | CTrade/Market/cTrader_Market/Nanolog.cpp:192-228 | the recursive reader is the decoder, including an unknown tag, which ends it, and bytes that end too early |
| LineBuffer.NanoLogLine.constructor | CTrade/Market/cTrader_Market/Nanolog.cpp:121-131 | a fresh line holds its time stamp and level and no arguments |
| LineBuffer.NanoLogLine.ResizeBufferIfNeeded | CTrade/Market/cTrader_Market/Nanolog.cpp:235-259 | makes room without changing the contents, copies only when it must, and keeps the bounds on capacity and copying for the bytes about to be used |
| LineBuffer.NanoLogLine.EncodeCString | CTrade/Market/cTrader_Market/Nanolog.cpp:275-288 | adds exactly the record of the string, nothing for an empty one |
| LineBuffer.NanoLogLine.Push | CTrade/Market/cTrader_Market/Nanolog.cpp:296-343 | across any number of growths the buffer holds exactly the header and all records; bytes used never exceed capacity, a heap buffer is at most max(512, 2 * used), all growths together copy less than twice the bytes used |
| LineBuffer.NanoLogLine.Stringify | CTrade/Market/cTrader_Market/Nanolog.cpp:135-160 | prints the line the buffer holds; with NUL-free strings that is the date, the level and all arguments pushed |
| SlidingWindow.FrontDecides | CTrade/Market/cTrader_Market/throttling.h:87-104 | comparing with the admission `msgLimit` places back decides exactly whether fewer than `msgLimit` admissions lie in the window that ends now |
| SlidingWindow.SpacedIsAdmitted | CTrade/Market/cTrader_Market/throttling.h:80-119 | a history has the throttle's spacing if and only if the unbounded rule admits each of its entries after those before it |
| SlidingWindow.RateBound | CTrade/Market/cTrader_Market/throttling.h:80-119 | any closed window of the throttle's length holds at most `msgLimit` admissions |
| SlidingWindow.LongRateBound | CTrade/Market/cTrader_Market/throttling.h:80-119 | an interval of duration T holds at most `msgLimit` * (floor(T / length) + 1) |
| Throttle.CircularArray.Store | CTrade/Market/cTrader_Market/throttling.h:24-37 | the array holds the last `maxSize` values of an unbounded log, which grows by the value stored |
| Throttle.CircularArray.Front | CTrade/Market/cTrader_Market/throttling.h:39-42 | once full, the front is the value stored `maxSize` places back |
| Throttle.StrictClock | CTrade/Market/cTrader_Market/throttling.h:91-98 | a clock that advances with every reading never goes back and gets past any time |
| Throttle.SlidingWindowThrottling.Try | CTrade/Market/cTrader_Market/throttling.h:89-104 | one check admits exactly when the unbounded rule does |
| Throttle.SlidingWindowThrottling.CheckThrottleLimit | CTrade/Market/cTrader_Market/throttling.h:80-119 | the polling loop terminates on a clock that gets past every time, and admits the first reading it checks that the unbounded rule admits; the message after the first refusal costs a reading |
| LinkedQueue.StepKeepsInv | CTrade/Market/cTrader_Market/lockfreeQueue.h:27-33 | every single load, store, allocation and deletion of either thread keeps the list's invariant, with addresses reused after deletion |
| LinkedQueue.PushedIsRun | CTrade/Market/cTrader_Market/lockfreeQueue.h:99-107 | the values pushed, and the one being pushed, are the arguments of the push calls of the run |
| LinkedQueue.Fifo | CTrade/Market/cTrader_Market/lockfreeQueue.h:99-120 | in every interleaving values popped followed by the values found in the list are the arguments of the finished push calls in order, no step touches a deleted node, and the dummy's value is never taken |
| LinkedQueue.CompareAnswer | CTrade/Market/cTrader_Market/lockfreeQueue.h:112-120 | the comparison of `try_pop` goes on to take a value if and only if some finished push has not been popped; otherwise it changes nothing |
| LinkedQueue.PopCall | CTrade/Market/cTrader_Market/lockfreeQueue.h:27-33 | a call whose comparison finds a value ends, whatever the producer does meanwhile, with exactly one value more popped, the oldest not popped when it started |
| LinkedQueue.PushAlone | CTrade/Market/cTrader_Market/lockfreeQueue.h:99-107 | from every reachable state a push run alone ends with its value pushed |
| LinkedQueue.PopAlone | CTrade/Market/cTrader_Market/lockfreeQueue.h:112-120 | from every reachable state with something left a `try_pop` run alone ends with the oldest value popped |
| LinkedQueue.EmptyAnswer | CTrade/Market/cTrader_Market/lockfreeQueue.h:112-120 | `try_pop` finds the queue empty exactly when every finished push has been popped |
| LinkedQueue.NothingLeaks | CTrade/Market/cTrader_Market/lockfreeQueue.h:27-33 | between calls the heap holds one node for each value in the queue and the dummy |
| FixText.RoundTrip | CTrade/Order/cTrader_order/stringParser.h:90-120 | parsing a printed message gives its fields, restricted to the printed tags and with "10" set to "000", if and only if no printed value contains SOH or NUL; values may contain '=', and tag 151 is printed twice |
| FixText.AssignedClean | CTrade/Order/cTrader_order/stringParser.h:24-30 | what the parser stores never contains SOH or NUL |
| FixText.PrintedBack | CTrade/Order/cTrader_order/stringParser.h:156-161 | for any list of plain tags the parser undoes the printer on clean values |
| FixReading.ParsedIs | CTrade/Order/cTrader_order/stringParser.h:19-35 | for any input, the parser has a value for a tag if and only if the last piece for that tag, in the text up to the first NUL, assigns it: `tag=value` with the first equals sign, or a piece without one, which is tag and value alike |
| FixReading.SegmentsArePieces | CTrade/Order/cTrader_order/stringParser.h:24-30 | every text has such pieces: free of SOH, and joined by it they give the text again |
| FixReading.PiecesAreSegments | CTrade/Order/cTrader_order/stringParser.h:24-30 | and it has only one list of them, the one the parser walks |
| FixReading.CarriedTags | CTrade/Order/cTrader_order/stringParser.h:90-120 | the tags an outgoing message can carry are exactly these 24 |
| FixReading.StandardOrder | CTrade/Order/cTrader_order/stringParser.h:94-120 | a message with its standard header starts with begin string, body length and message type and ends with the checksum, as FIX 4.4 demands |
| FixMessage.FixStringCreator.UpdateString | CTrade/Order/cTrader_order/stringParser.h:156-161 | appends one field if it is set and nothing otherwise |
| FixMessage.FixStringCreator.GetOmsString | CTrade/Order/cTrader_order/stringParser.h:90-120 | appends the message to the output and leaves "10" set; from an empty output it reads back exactly under the condition above |
| FixMessage.FixStringParser.LoadString | CTrade/Order/cTrader_order/stringParser.h:19-35 | forgets the last message and holds the fields of the input up to its first NUL, a later field replacing an earlier one of the same tag, text without '=' being tag and value alike |
| FixMessage.FixStringParser.GetIfSet | CTrade/Order/cTrader_order/stringParser.h:42-52 | finds a key exactly when it is present, with its value |
| OmsFraming.Unique | CTrade/Order/cTrader_order/omsSocketHandler.h:84-97 | a stream can be split into messages that end one character behind their first terminator, and a rest with no whole message, in only one way |
| OmsReceiver.OmsRcvServer.RcvFromOms | CTrade/Order/cTrader_order/omsSocketHandler.h:55-101 | one read hands out the messages of left-over and new bytes, keeps the rest, and drops the connection exactly when the bytes end right behind a terminator |
| OmsReceiver.BytesConserved | CTrade/Order/cTrader_order/omsSocketHandler.h:72-97 | handled messages followed by the left-over bytes are always all bytes received |
| OmsReceiver.AliveSplits | CTrade/Order/cTrader_order/omsSocketHandler.h:72-97 | while the connection lives, the handled messages and the left-over are the greedy split of the whole stream |
| OmsReceiver.AliveIffNeverShort | CTrade/Order/cTrader_order/omsSocketHandler.h:94-101 | the connection survives all reads if and only if none ends right behind a terminator of that split |
| OmsReceiver.SplitIffNeverShort | CTrade/Order/cTrader_order/omsSocketHandler.h:72-101 | for every sequence of reads, the handled messages and the left-over are the greedy split of the whole stream if and only if no read ends right behind a terminator of that split |
| OmsReceiver.ChunkIndependence | CTrade/Order/cTrader_order/omsSocketHandler.h:72-101 | against reads none of which ends so, another way of cutting the same stream gives the same messages and the same left-over bytes if and only if none of its reads ends so either |
| OmsReceiver.CutMatters | CTrade/Order/cTrader_order/omsSocketHandler.h:94-101 | a witness: one message read whole, and with its last character in a read of its own, is handed out differently |
| OmsMessages.PrintedIsFramed | CTrade/Order/cTrader_order/stringParser.h:90-120 | a printed message is exactly one message of the stream if and only if no value in it holds 0=000 and none of 50, 150 and 60 starts with 000 |
| OmsMessages.PrintedArrive | CTrade/Order/cTrader_order/omsSocketHandler.h:72-101 | any cutting of several such messages that never ends short hands out exactly these messages, and nothing is left over |
| OmsMessages.PrintedUnderstood | CTrade/Order/cTrader_order/stringParser.h:19-35 | and each with clean values is read back as the fields it was printed from |

## Left out

- `QueueBuffer`, `RingBuffer` and `LockFreeQueue` are state machines on values, not classes: the methods of one C++ object interleave access by access, which a class with atomic methods would hide. What the machines do not show is the code between two accesses to shared memory.
- Memory reclamation of popped `Buffer`s: a slot is published at Nanolog.cpp:485 before it is counted at :486, so no claim is made about when a buffer may be freed; the model keeps all of them.
- Weak memory orderings and the 32-bit wrap of the ring's and queue's counters.
- `LockFreeQueue::pop` (waiting on the condition variable), `putToSleep`, `start` and the destructor: only the alive queue is modelled.
- MarketDepth.StdSort: `std::sort` is represented by its contract, a permutation in order, with a sorting function inside; its algorithm is not modelled.
- MarketDepth.MarketData5Depth.InsertBuyDepth: the test `pos >= 5` of the source is not modelled, because the search it follows never returns more than 4.
- PositionLadder.SortedDepth.GetPosition: tests the bound before it reads the slot; the source reads first and ignores what it read.
- PositionLadder.SortedDepth.Insert: prices are positive, as everywhere in the ladder models, because an empty slot is one with price 0.
- SymbolStore.SymbolDataStore.ApplyNew: sums of quantities are unbounded; the 64-bit sum of the source does not wrap in the model.
- SymbolStore.SymbolDataStore.ApplyUpdate: an unknown action or side is one case that changes nothing; the message it logs is not modelled.
- Trades, open/high/low/close, implied quantities, best-bid/ask crossing, `deleteSymbol`, subscription files and the getters that narrow quantities to 16 bits.
- Throttle.SlidingWindowThrottling.CheckThrottleLimit: the time limit is a `real`; rounding of the `double` product is not modelled. Without a clock that gets past every time the loop need not end, and nothing is claimed then.
- NanoLine.RoundTrip: a double or a string literal is eight opaque bytes, and how the stream prints numbers is a parameter.
- LineBuffer.NanoLogLine.Stringify: formatting the date and flushing after critical lines are not modelled.
- FixMessage.FixStringCreator.GetOmsString: the 24 calls for the tags are one loop over the list of tags; the log line that is printed at the end is not modelled.
- FixMessage.FixStringCreator.GetIfSet: `_itrEnd` is never assigned in the source's creator; the lookup is modelled as "the key is present".
- OmsReceiver.OmsRcvServer.RcvFromOms: the bytes of one successful read are the argument; accepting a connection and failing reads are not modelled, and `handleOmsWrite` is the list of its arguments.
- Sockets, TLS, message brokers, QuickFIX sessions, configuration, and the binary exchange protocols with their packet reassembly.
