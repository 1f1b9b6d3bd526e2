# A verified model of the dxFeed C API's book, codec and index

This project models the parts of the dxFeed C API that carry the most state, and proves what they keep.
C objects that are changed in place are classes here, with their fields; every method is tied by its
`ensures` to a function of the old state, and the laws are proved of those functions for all inputs and
all runs.

**Price level books** (`src/PriceLevelBook.c`). An order source keeps a snapshot of orders sorted by
index and, per side, an array of the ten best aggregated levels that is changed order by order, with
eviction, with a lazy rebuild when a level is used up, and with add-before-remove on updates. A status
machine decides when this is published, and a k-way merge combines what the sources have published.
The simple thing all this is proved to agree with is: add up the sizes of all live orders by price, sort,
take ten. `PriceLevels` holds that simple book and its algebra, `LevelSides` one side, `OrderSources` one
source, `SourceRuns` whole runs of events and `BookMerge` the merge. `MarketBook` says what a book over
several sources holds after any interleaving of their events, and `MarketListener` shows that the objects do
that. `SidelessOrders` is about orders without a side and `Notices` about when listeners of a book are
called. `SourceTables` is the open-addressing hash table of sources with backward-shift deletion.

**Wire codec** (`src/BufferedOutput.c`, `src/BufferedInput.c`, `src/BufferedIOCommon.c`,
`src/ClientMessageProcessor.c`, `src/HeartbeatPayload.cpp`). `CompactFormat` and `Utf8Format` say on
values which bytes are written and what is made of any bytes ahead; integers are bit vectors of their C
width; `Pointers` has strings that may be NULL. `BufferedOutput` and `BufferedInput` are the two buffers with
a position, whose methods are proved against those formats, the readers on failing input too. `Framing` and
`Heartbeat` build on them.

**Subscription index** (`src/EventSubscription.cpp`). `Subscriptions` models the two-way index of
subscriptions and symbols with its reference counts. Listeners are scripts: finite trees of calls that add
and remove symbols and process further events while an event is being dispatched. Every claim about
re-entrant dispatch is for all such scripts.

**Concrete structures** (`src/DXAlgorithms.h`, `src/DXAlgorithms.c`, `src/DataStructures.c`,
`src/DXProperties.c`). `DxArrays` has the array macros and their capacity manager, `Base64`, `RecordIds`
and `Properties` the structures built on them.

## What the code does not do

- The two-byte form of `dx_read_compact_long` shifts back an unsigned value (`src/BufferedInput.c:608-616`)
  and loses the sign, although the writer uses this form for numbers from -0x2000 to -0x41. A long comes
  back exactly unless it is in that range, where it comes back larger by 0x4000. Heartbeats inherit this
  for times that are negative as signed numbers.
- `dx_read_utf_sequence` passes the bytes that are left as the length of its buffer
  (`src/BufferedInput.c:288-296`). A string comes back exactly when at each of its surrogate pairs the bytes
  still to come are at least two more than the units already read; a string that is one pair does not.
- `dx_plb_ctx_grow_sources_hashtable` looks into every slot of the old table, the empty ones too
  (`src/PriceLevelBook.c:239-242`), and an empty slot always exists. A source can be added exactly while
  the table is not more than half full; a new table takes 513 sources, and `FillUp` gets there.
- An order without a side is entered among the asks and later taken out of them (`src/PriceLevelBook.c:694-697`),
  but forgotten when that side is rebuilt (`src/PriceLevelBook.c:642`). So it may show, and when it leaves, its
  size may be taken from real orders at its price, which then stays wrong (`UndefinedSideTakes`). The asks
  stay right exactly through the events that `Harmless` describes: each such order is entered only while the
  asks wait for a rebuild or ten better prices hide it, and leaves only while they wait for a rebuild, do not
  show its price, or come to wait because the level is used up; or one takes the place of another of the same
  price and size. Once wrong, the asks are right again when they are cleared by a snapshot begin or rebuilt.
  The bids are right whatever comes.
- The merge starts bids at 0 and asks at 1.0E38 (`src/PriceLevelBook.c:825`, `src/PriceLevelBook.c:828`), so
  that worse prices are cut.
- Listeners of a book are called when a cell still in use was written (`src/PriceLevelBook.c:800-832`), and a
  cell holds a time besides price and size. So a side that gets shorter need not notify, and the counts its
  listeners see then stay too large (`ShrinkIsSilent`); it does notify when the rebuild behind it left another
  time on a level that stays (`ShrinkWithNotice`). Cells out of use keep what they held, so that a level that
  comes back as it was is not told either, and the counts are then too small. Listing an order again adds the
  new one before it removes the old one, which leaves the old time on the level, so that a time alone notifies
  (`TimeAloneNotifies`).
- A subscription to `*` is called only for symbols that it holds as well (`src/EventSubscription.cpp:725`), and then
  twice: `WildcardAlone` and `WildcardTwice` are such subscriptions.

## Model

| member | source | states |
|---|---|---|
| `DxArrays.BinarySearch` | src/DXAlgorithms.h:219-245 | On a run ordered for the key: a match, or else the one place where inserting the key keeps the order |
| `DxArrays.Halfer` | src/DXAlgorithms.c:101-115 | Growing by one always makes room; the capacity changes exactly when a reallocation is asked for |
| `DxArrays.HalferWastesLittle` | src/DXAlgorithms.c:101-115 | At least half of the capacity stays in use through any growing and shrinking by one |
| `DxArrays.HalferExactly` | src/DXAlgorithms.c:101-115 | No reallocation while the size is between half the capacity and all of it; growing adds a half |
| `DxArrays.DxArray.Insert` | src/DXAlgorithms.h:313-346 | The contents with the element put in, in place or in a new buffer, size within capacity |
| `DxArrays.DxArray.Delete` | src/DXAlgorithms.h:373-405 | The contents without the element, size within capacity |
| `DxArrays.DxArray.Reserve` | src/DXAlgorithms.h:442-466 | The size never shrinks and the elements in use keep their values |
| `PriceLevels.BookIsAggregate` | src/PriceLevelBook.c:637-648 | The simple book is strictly sorted, positive, and holds at every price the total size of the orders |
| `PriceLevels.BookIsUnique` | src/PriceLevelBook.c:637-648 | Sorted positive lists that agree on the size at every price are equal, so the order of arrival does not matter |
| `PriceLevels.BookOfMiddle` | src/PriceLevelBook.c:705-712 | An order put anywhere into the snapshot changes the simple book like one quantity added at its price |
| `PriceLevels.TakeInsert` | src/PriceLevelBook.c:605-633 | Adding a quantity to the best n levels and cutting again loses nothing against the full book |
| `PriceLevels.SubtractUndoesInsert` | src/PriceLevelBook.c:589-601 | Taking away what was added gives the full book back |
| `PriceLevels.TakeSubtract` | src/PriceLevelBook.c:589-601 | While no cached level is used up, reducing the cached levels is the same as cutting the reduced full book |
| `PriceLevels.TopTenExactly` | src/PriceLevelBook.c:605-633 | A list is the first ten levels of the simple book if and only if it is sorted, each level has the full positive total of its price, and every other price on offer is worse than ten of them |
| `LevelSides.PlacedIsTop` | src/PriceLevelBook.c:610-632 | The three branches after the search, eviction included, yield the ten best of the levels and the new quantity |
| `LevelSides.LevelSide.FindLevel` | src/PriceLevelBook.c:609-609 | The level of a price, or the place where it belongs |
| `LevelSides.LevelSide.AddOrder` | src/PriceLevelBook.c:605-633 | The levels become the ten best of themselves and the order; `updated` is set exactly when its price is among them; its time is put on its level and the times of the others move with them |
| `LevelSides.AddedTimes` | src/PriceLevelBook.c:605-633 | By price, on both sides: the level of the price of the order, if it shows, has the time of the order, and every other level the time its price had before, eviction included |
| `LevelSides.LevelSide.RemoveOrder` | src/PriceLevelBook.c:589-601 | The level of the price is reduced and gets the time of the order that leaves; a level used up asks for a rebuild; an absent price changes nothing |
| `LevelSides.RemovedTimes` | src/PriceLevelBook.c:589-601 | By price, on both sides: the level of the price of the order has the time of the order that leaves, every other the time it had |
| `OrderSources.OrderSource.constructor` | src/PriceLevelBook.c:432-504 | A new source is empty and settled |
| `OrderSources.OrderSource.Locate` | src/PriceLevelBook.c:661-680 | The fast path and the narrowed search give the same answer as a search of the whole snapshot: the number of smaller indices, and whether the index is there |
| `OrderSources.OrderSource.ProcessOrder` | src/PriceLevelBook.c:652-714 | Snapshot and both sides after a listing, an update, a zeroed size or a removal |
| `OrderSources.OrderSource.ResetSnapshot` | src/PriceLevelBook.c:558-585 | Orders, levels and published levels go, the flags stay |
| `OrderSources.RebuildLevels` | src/PriceLevelBook.c:637-648 | The side becomes the ten best levels of the simple book of its orders, with the times of the orders last added at each price in the order of the snapshot |
| `OrderSources.RebuiltTimes` | src/PriceLevelBook.c:637-648 | After a rebuild every level has the time of the order of its side and price that comes last in the snapshot |
| `OrderSources.OrderSource.Publish` | src/PriceLevelBook.c:904-917 | Sides waiting for it are rebuilt, updated sides are published |
| `OrderSources.OrderSource.OnEvent` | src/PriceLevelBook.c:849-927 | The listener is one step of the state machine that the run lemmas are about, and of the one for the times of the levels beside it; it says whether consumers are updated |
| `SourceRuns.AddMatches` | src/PriceLevelBook.c:605-633 | "Waiting for a rebuild, or the best ten of its orders" survives an order entering anywhere in the snapshot |
| `SourceRuns.RemoveMatches` | src/PriceLevelBook.c:589-601 | It survives an order leaving |
| `SourceRuns.ProcessOrderKeeps` | src/PriceLevelBook.c:652-714 | It survives every harmless kind of order event, which are all whose orders have a side and some others, and so does the strict order by index |
| `SourceRuns.PublishIsExact` | src/PriceLevelBook.c:904-917 | Publication leaves on both sides the best ten of the snapshot, whatever was pending |
| `SourceRuns.HandleKeepsBids` | src/PriceLevelBook.c:849-927 | Every event keeps snapshot and bids right, in the middle of snapshots and transactions too |
| `SourceRuns.HandleKeeps` | src/PriceLevelBook.c:849-927 | An event that fits keeps the asks right as well, and one that clears them or leaves them waiting for a rebuild makes them right |
| `SourceRuns.RunStaysQuiet` | src/PriceLevelBook.c:904-904 | After any run at all a side that was never updated is empty, also what it published, and waits for nothing |
| `SourceRuns.ForeignDoNotCount` | src/PriceLevelBook.c:849-875 | Any run is the run without its foreign events, which are those that are no orders or of another symbol or source, in state, times and publication; and no foreign event is published |
| `SourceRuns.TimesAreOfOrders` | src/PriceLevelBook.c:589-633 | After any run every time on a level of either side, kept or published, is that of an order listed on this side at this price |
| `SourceRuns.SettledTimes` | src/PriceLevelBook.c:904-917 | After any run a settled source has published, on every side ever updated, the levels it keeps with their times |
| `SourceRuns.SnapshotIsLive` | src/PriceLevelBook.c:652-714 | After any run at all the snapshot lists exactly the live orders, read off the events as a plain map |
| `SourceRuns.FinalBidsAreExact` | src/PriceLevelBook.c:849-927 | After any run that leaves the source settled, the published bids are the ten best prices of the live buys with their full sizes |
| `SourceRuns.FinalSidesAreExact` | src/PriceLevelBook.c:849-927 | After any orderly run that leaves it settled, the published asks are those of the live sells too |
| `SourceRuns.StatusExactly` | src/PriceLevelBook.c:868-902 | The status after any run, read off the flags: begin in a snapshot, pending in a transaction, else full; never unknown |
| `SourceRuns.PublishedExactly` | src/PriceLevelBook.c:903-926 | In any run at all consumers are updated if and only if the event is accepted, leaves no snapshot and no transaction open, and something was ever listed |
| `SourceRuns.UpdatedExactly` | src/PriceLevelBook.c:904 | A side was ever updated if and only if an order was ever listed |
| `SourceRuns.SideUpdatedExactly` | src/PriceLevelBook.c:824-829 | The bids were ever updated if and only if a buy was ever listed, the asks if and only if any other order was |
| `SourceRuns.FinalSidesArePublic` | src/PriceLevelBook.c:558-585 | At all times a published side is the best ten levels of the orders of the last publication, or of none if a snapshot has begun since, if the run was right up to that publication |
| `SourceRuns.SettledIsPublic` | src/PriceLevelBook.c:903-917 | A settled source has published the orders it has |
| `SidelessOrders.UndefinedSideShows` | src/PriceLevelBook.c:697-697 | A run after which an order without a side is published among the asks |
| `SidelessOrders.UndefinedSideExactly` | src/PriceLevelBook.c:697-697 | When an order without a side is listed, the asks published then are right if and only if a rebuild is pending or ten better prices hide the order |
| `SidelessOrders.UndefinedSideLeftExactly` | src/PriceLevelBook.c:694-694 | When one is removed or its size zeroed, the asks published then are right if and only if a rebuild is pending or asked for by this, or its price is not among the levels |
| `SidelessOrders.HarmlessExactly` | src/PriceLevelBook.c:652-714 | Of order events of every kind, updates from and to orders without a side too, exactly the harmless ones leave the asks right for a publication; the bids are right after all |
| `SidelessOrders.OrderlyExactly` | src/PriceLevelBook.c:849-927 | A run is orderly if and only if, ever since the asks were last cleared or left waiting for a rebuild, both sides wait for a rebuild or hold the best ten |
| `SidelessOrders.SidedIsOrderly` | src/PriceLevelBook.c:849-927 | Every run whose orders have a side is orderly |
| `SidelessOrders.UndefinedSideTakes` | src/PriceLevelBook.c:589-601 | A run of fourteen events after which 2 is published at a price where live sells offer 7 |
| `BookMerge.BestHead` | src/PriceLevelBook.c:780-798 | The best head not worse than the start value, with the sizes of all heads of its price |
| `BookMerge.BestHeadIsNext` | src/PriceLevelBook.c:777-812 | The best head is the next level of the merge of all sides, and there is none exactly at its end |
| `BookMerge.Advance` | src/PriceLevelBook.c:804-809 | Every side whose head has the merged price moves on by one, no other does |
| `BookMerge.MergeLevels` | src/PriceLevelBook.c:779-810 | The levels of the merge, with the latest time that any source has at each price, are written one after the other until ten are written, the sides are used up or the next is worse than the start value; `changed` if and only if a cell written had another price, size or time |
| `BookMerge.UpdateOneSide` | src/PriceLevelBook.c:770-815 | The ten best prices of all sources with sizes added up and the latest of their times, cut at the start value; `changed` exactly when a level still in use differs from its cell before, be it in the time only; cells out of use keep what they held |
| `BookMerge.PriceLevelBook.Update` | src/PriceLevelBook.c:820-840 | Both sides of the book, levels and times; its listeners are called, and the counts they see refreshed, if and only if a cell still in use has changed |
| `BookMerge.LatestHeadIsLatest` | src/PriceLevelBook.c:787-797 | The latest time among the heads of the merged price is the latest that any source has at that price |
| `Notices.UpdateFromOne` | src/PriceLevelBook.c:820-840 | The cells of a book with one source of bids after an update, times and cells out of use included, and that it notifies exactly when a cell in use changes by that |
| `Notices.Play` | src/PriceLevelBook.c:820-927 | The objects, over any run of events that publishes nothing but bids above zero, do what the three lemmas below are about |
| `Notices.TimeAloneNotifies` | src/PriceLevelBook.c:800-800 | A run that lists an order three times: the second listing does not notify, the third does though only a time changes |
| `Notices.ShrinkIsSilent` | src/PriceLevelBook.c:830-832 | A run in which a side drops from two levels to one without notice, with listeners left to see two, and grows again without notice |
| `Notices.ShrinkWithNotice` | src/PriceLevelBook.c:800-832 | A run in which a side drops from two levels to one with notice, because a rebuild brings back an earlier time, and then grows to two while listeners are left to see one |
| `BookMerge.TruncationLosesNothing` | src/PriceLevelBook.c:770-815 | Merging the sources' best ten levels gives the same ten as merging their full books |
| `BookMerge.MergeIsExact` | src/PriceLevelBook.c:770-815 | The merge of the cut sides is the top ten of the price-wise sum over the orders of all sources |
| `BookMerge.StartValueExactly` | src/PriceLevelBook.c:824-829 | The start value cuts nothing if and only if no level is worse than it |
| `BookMerge.NegativeBidIsLost` | src/PriceLevelBook.c:825 | A bid below zero that the merge drops |
| `MarketBook.ShownExactly` | src/PriceLevelBook.c:824-829 | Of the ten best prices a book shows exactly the bids of at least 0 and the asks of at most 10 to the power of 38, in figures |
| `MarketBook.BoundedAreShown` | src/PriceLevelBook.c:824-829 | When all prices are within these bounds, it shows the ten best prices |
| `MarketBook.DearAskIsLost` | src/PriceLevelBook.c:828 | An ask above that bound which the merge drops |
| `MarketBook.MergedRunsAreExact` | src/PriceLevelBook.c:770-926 | Any runs of any sources that were right when each last published, whatever status they leave each in, merge into the ten best prices of all orders the sources last made public |
| `MarketBook.SettledRunsArePublic` | src/PriceLevelBook.c:903-917 | These are all live orders when all sources are settled |
| `MarketBook.SourcesRunApart` | src/PriceLevelBook.c:849-864 | Events of several sources, interleaved: each source is as if only its own had come |
| `MarketBook.BookIsLastMerge` | src/PriceLevelBook.c:820-926 | After any interleaving a side of the book is the ten best prices of all orders public at its last merge, cut at the start value, if what was public then was right; a side merges exactly when a source publishes that ever listed on it |
| `MarketBook.SettledBookIsExact` | src/PriceLevelBook.c:820-926 | After a merge with all sources settled it is the top ten of all live orders of all sources, cut at the start value |
| `MarketListener.SidesAreBooks` | src/PriceLevelBook.c:820-829 | What sources have published is fit for a merge in every reachable state, in the middle of snapshots and transactions too |
| `MarketListener.UpdateJoined` | src/PriceLevelBook.c:820-840 | The objects are updated as the market is, and the sources stay as they are; the listeners of the book are called exactly if a cell still in use got another price, size or time, and are told the counts then, and otherwise nothing they may look at changes |
| `MarketListener.Listen` | src/PriceLevelBook.c:849-927 | One event taken in by the objects, publication and merge included, is one step of the market, and calls the listeners exactly when its merge does |
| `MarketListener.Open` | src/PriceLevelBook.c:933-1030 | New sources and their book are the market before any event |
| `MarketListener.Replay` | src/PriceLevelBook.c:820-927 | End to end on the objects: after any interleaving both sides of the book hold the ten best prices of all orders public at the last merge of each; its listeners see the sides as of the last event they were called for, which share their cells with those of now, and the counts they were told are right exactly if the sides are the same |
| `SourceTables.FindPos` | src/PriceLevelBook.c:416-428 | Ends, at the entry of the key or at the empty slot that ends its probe path |
| `SourceTables.MoveTest` | src/PriceLevelBook.c:292-294 | The wrap-around test of the removal says exactly whether the entry's home lies outside the stretch from the hole to it |
| `SourceTables.ShiftingEnds` | src/PriceLevelBook.c:275-301 | When backward shifting ends, the table is well formed again |
| `SourceTables.EntriesDeleted` | src/PriceLevelBook.c:275-301 | And it has the same entries but the removed one |
| `SourceTables.SourceTable.FindSource` | src/PriceLevelBook.c:250-253 | The source of that symbol and name, or none exactly when there is none |
| `SourceTables.SourceTable.AddSource` | src/PriceLevelBook.c:258-270 | Adds the entry and keeps the others if and only if the table is at most half full; otherwise growing looks into an empty slot |
| `SourceTables.SourceTable.Grow` | src/PriceLevelBook.c:220-245 | Growing reaches an empty slot of the old table |
| `SourceTables.FillUp` | src/PriceLevelBook.c:258-270 | A new table takes 513 sources whatever the hash, and the next one meets the empty slot |
| `SourceTables.SourceTable.RemoveSource` | src/PriceLevelBook.c:275-301 | Removes exactly that source, every other is still found, and both loops end |
| `SourceTables.SourceTable.CleanupSources` | src/PriceLevelBook.c:306-322 | Ends with exactly the sources that have consumers, although removal shifts entries across the scan and around the end |
| `CompactFormat.IntRoundTrip` | src/BufferedOutput.c:416-454 | Every 32-bit number is read back, using exactly the bytes written, whatever follows |
| `CompactFormat.LongRoundTrip` | src/BufferedOutput.c:458-504 | Every 64-bit number is read back using exactly the bytes written, larger by 0x4000 if it loses its sign |
| `CompactFormat.LongRoundTripExactly` | src/BufferedInput.c:587-677 | A 64-bit number comes back unchanged if and only if it is not in the range from -0x2000 to -0x41 |
| `CompactFormat.LongRoundTripFails` | src/BufferedInput.c:608-616 | -100 comes back as 16284 |
| `CompactFormat.LongReadAsInt` | src/BufferedInput.c:572-580 | The int reader consumes a long number entirely and keeps its low 32 bits |
| `CompactFormat.SizeIsWritten` | src/BufferedIOCommon.c:137-179 | The announced size of every 64-bit number is the number of bytes written |
| `CompactFormat.IntNeedsAll` | src/BufferedInput.c:514-583 | Whatever bytes the int reader accepts, it accepts no shorter part of them but fails for want of bytes |
| `CompactFormat.LongNeedsAll` | src/BufferedInput.c:587-677 | The same of the long reader |
| `CompactFormat.IntPrefixUnderflows` | src/BufferedInput.c:514-677 | Of no proper prefix of a written 32-bit number does either reader make a number; both fail for want of bytes |
| `CompactFormat.LongPrefixUnderflows` | src/BufferedInput.c:514-677 | The same for every 64-bit number |
| `CompactFormat.IntsOnTheWire` | src/BufferedOutput.c:416-454 | The bytes of the first and last numbers of every form of an int, negative ones too |
| `CompactFormat.LongsOnTheWire` | src/BufferedOutput.c:458-504 | The bytes of the numbers at which a long takes another form |
| `CompactFormat.LongestOnTheWire` | src/BufferedOutput.c:458-504 | The same for the two longest forms |
| `CompactFormat.NegativesOnTheWire` | src/BufferedOutput.c:458-504 | The same for negative longs |
| `Lengths.LengthRoundTrip` | src/ClientMessageProcessor.c:194-206 | A length that fits a C int is recovered from its bits |
| `Lengths.LargestLength` | src/BufferedOutput.c:156-179 | The largest length is the largest number that is not negative in 32 bits |
| `Utf8Format.CharRoundTrip` | src/BufferedInput.c:728-756 | Every code point up to 0x10FFFF, surrogates included, is read back from the bytes written for it |
| `Utf8Format.CharsExactly` | src/BufferedInput.c:180-242 | Read off the bits of the bytes: a character is read if and only if it has its first byte, all its bytes and each of them a continuation, and is within 0x10FFFF; it runs short if and only if bytes are missing; else it is bad |
| `Utf8Format.CharsOnTheWire` | src/BufferedOutput.c:525-545 | The bytes of the first and last code points of every form |
| `Utf8Format.ShortsAre` | src/BufferedInput.c:371-378 | A short is the unsigned one with its sign repeated in the upper half |
| `Utf8Format.PairComesBack` | src/BufferedIOCommon.c:74-79 | Splitting the code point of a surrogate pair gives the pair |
| `Utf8Format.PairsInFigures` | src/BufferedIOCommon.c:99-101 | The code points of the first pair, the last and one between |
| `Utf8Format.SurrogatesAre` | src/BufferedIOCommon.c:87-95 | Six bits tell a high surrogate, and a low one |
| `Utf8Format.UnitsRoundTrip` | src/BufferedInput.c:246-311 | A string comes back from its bytes if and only if its surrogate pairs fit; otherwise the reader reports bad data |
| `Utf8Format.StringRoundTrip` | src/BufferedInput.c:778-794 | The same with the length before it, and for NULL |
| `Utf8Format.StringPrefixFails` | src/BufferedInput.c:778-794 | No proper prefix of a written string or of NULL is read as one |
| `Utf8Format.BadLengthIsRefused` | src/BufferedInput.c:778-794 | NULL is read if and only if the length is -1; every other length that is no C int of at least zero is refused |
| `Utf8Format.NoPairsFit` | src/BufferedInput.c:288-296 | Strings without surrogate pairs always come back |
| `Utf8Format.LonePairFails` | src/BufferedInput.c:288-296 | A string that is one surrogate pair does not |
| `BufferedOutput.OutBuffer.EnsureCapacity` | src/BufferedOutput.c:156-179 | Fails exactly when position and length add up beyond a C int; otherwise there is room, the new size is given, and contents and position are kept |
| `BufferedOutput.GrownExactly` | src/BufferedOutput.c:156-179 | The new size is the least that is at least twice the old one or else the largest, at least 1024 and at least what is needed |
| `BufferedOutput.OutBuffer.CheckWrite` | src/BufferedOutput.c:187-193 | Fails exactly without a buffer or when growing fails |
| `BufferedOutput.OutBuffer.WriteByte` | src/BufferedOutput.c:266-272 | The byte at the old position, everything else kept |
| `BufferedOutput.OutBuffer.WriteIntUnchecked` | src/BufferedOutput.c:221-226 | Four bytes at the position, highest first |
| `BufferedOutput.OutBuffer.WriteUtf2Unchecked` | src/BufferedOutput.c:197-200 | The two bytes of a code point at the position, everything else kept |
| `BufferedOutput.OutBuffer.WriteUtf3Unchecked` | src/BufferedOutput.c:204-208 | The same with three bytes |
| `BufferedOutput.OutBuffer.WriteUtf4Unchecked` | src/BufferedOutput.c:212-217 | The same with four bytes |
| `BufferedOutput.OutBuffer.WriteCompactInt` | src/BufferedOutput.c:416-454 | The bytes of the format at the old position, every other byte kept, also behind them; fails exactly when there is no room |
| `BufferedOutput.OutBuffer.WriteCompactLong` | src/BufferedOutput.c:458-504 | The same for longs, room being asked for by the form that is used |
| `BufferedOutput.OutBuffer.WriteUtfChar` | src/BufferedOutput.c:525-545 | The bytes of a code point; fails exactly without room or for no code point |
| `BufferedOutput.OutBuffer.Utf8Length` | src/BufferedOutput.c:561-574 | The length loop computes exactly the number of bytes the writing loop writes |
| `BufferedOutput.OutBuffer.WriteUtfString` | src/BufferedOutput.c:549-603 | Length and bytes of the string, or a prefix of them when growing fails; succeeds if and only if there is a buffer and each of its writes in turn finds or gets the room it asks for |
| `BufferedOutput.HalfFitsString` | src/BufferedOutput.c:549-603 | Up to half the range of a C int they all do, whatever the length of the buffer |
| `BufferedInput.InBuffer.MovePos` | src/BufferedInput.c:151-158 | The position moves by the offset but not beyond either end, and the rest is returned |
| `BufferedInput.InBuffer.Validate` | src/BufferedInput.c:162-176 | There is a buffer and so many bytes are ahead |
| `BufferedInput.InBuffer.ReadByte` | src/BufferedInput.c:351-357 | The byte ahead, or a failure that consumes nothing |
| `BufferedInput.InBuffer.ReadShort` | src/BufferedInput.c:371-378 | Two bytes ahead as a signed number, or a failure that consumes nothing |
| `BufferedInput.InBuffer.ReadUnsignedShort` | src/BufferedInput.c:382-389 | Two bytes ahead as an unsigned number, or a failure that consumes nothing |
| `BufferedInput.InBuffer.ReadInt32` | src/BufferedInput.c:393-402 | Four bytes ahead, or a failure that consumes nothing |
| `BufferedInput.InBuffer.ReadUtf2` | src/BufferedInput.c:180-196 | The rest of a two-byte character; a bad second byte is consumed |
| `BufferedInput.InBuffer.ReadUtf3` | src/BufferedInput.c:200-216 | The rest of a three-byte character; a bad tail is consumed |
| `BufferedInput.InBuffer.ReadUtf4` | src/BufferedInput.c:220-242 | The rest of a four-byte character, in range; the second byte is consumed even when the tail is missing |
| `BufferedInput.InBuffer.SkipExtra` | src/BufferedInput.c:572-576 | The shifting loop skips one byte for each leading bit after the first four |
| `BufferedInput.InBuffer.ReadCompactInt` | src/BufferedInput.c:514-583 | Result, failure and final position as the format says for the bytes ahead, on every input |
| `BufferedInput.InBuffer.ReadCompactLong` | src/BufferedInput.c:587-677 | The same for longs |
| `BufferedInput.InBuffer.ReadUtfChar` | src/BufferedInput.c:728-756 | The same for a code point |
| `BufferedInput.InBuffer.ReadUtfSequence` | src/BufferedInput.c:246-311 | The same for the units of a string of that many bytes |
| `BufferedInput.InBuffer.ReadUtfString` | src/BufferedInput.c:778-794 | The same for a string with its length |
| `Framing.ComposeHeader` | src/ClientMessageProcessor.c:175-180 | The reserved byte and the message type behind it, if and only if both writes find or get their room |
| `Framing.MoveMessageData` | src/ClientMessageProcessor.c:184-190 | The data arrives unchanged at its new place, also when the two places overlap and the buffer is reallocated |
| `Framing.FinishComposing` | src/ClientMessageProcessor.c:194-209 | The buffer holds the compact length and then the unchanged body, moved or not; fails exactly when the buffer must move the body and cannot grow |
| `Framing.ReadLengthAndLimit` | src/ServerMessageProcessor.c:810-831 | Incomplete, invalid or the limit of the message, as said of the bytes ahead |
| `Framing.FrameIsDelimited` | src/ServerMessageProcessor.c:810-831 | The receiver finds exactly the body of every framed message, whatever follows, once all of it has arrived |
| `Framing.FramePrefixIsIncomplete` | src/ServerMessageProcessor.c:810-831 | As long as any byte of a framed message is missing, the receiver finds it incomplete |
| `Framing.InvalidExactly` | src/ServerMessageProcessor.c:818-820 | A message is invalid if and only if its length has arrived and is no C int of at least zero, or leads beyond the largest position |
| `Framing.FrameOnTheWire` | src/ClientMessageProcessor.c:194-209 | The bytes before a message of 300 |
| `Heartbeat.HeartbeatPayload.ComposeTo` | src/HeartbeatPayload.cpp:132-164 | The mask and the fields it announces, in order, or a prefix when growing fails; succeeds if and only if there is a buffer and each write finds or gets its room |
| `Heartbeat.HalfFitsPayload` | src/HeartbeatPayload.cpp:132-164 | Up to half the range of a C int they all do |
| `Heartbeat.HeartbeatPayload.ParseFrom` | src/HeartbeatPayload.cpp:80-130 | Payload, outcome and bytes consumed for every input; fields read before a failure stay |
| `Heartbeat.ReachedKept` | src/HeartbeatPayload.cpp:36-78 | Fields that were not set are zero after any calls of the setters and of clear |
| `Heartbeat.HeartbeatRoundTrip` | src/HeartbeatPayload.cpp:80-164 | Every payload the setters can reach is restored in all fields from exactly its bytes if and only if its time does not lose its sign |
| `Heartbeat.TimesComeBack` | src/HeartbeatPayload.cpp:80-164 | In particular every payload whose time is below 2 to the power of 63 |
| `Heartbeat.PayloadPrefixFails` | src/HeartbeatPayload.cpp:80-130 | No proper prefix of a written payload is parsed |
| `Heartbeat.PayloadsOnTheWire` | src/HeartbeatPayload.cpp:132-164 | The bytes of a payload with no field, with each one alone, and with all four |
| `Subscriptions.EventSubscriptionConnectionContext.SubscribeSymbol` | src/EventSubscription.cpp:236-261 | The symbol is in the table and knows its owner; its count still tells how many use it |
| `Subscriptions.EventSubscriptionConnectionContext.UnsubscribeSymbol` | src/EventSubscription.cpp:273-291 | Never fails on a held symbol; the symbol goes exactly when nobody else holds it and no dispatch uses it |
| `Subscriptions.EventSubscriptionConnectionContext.RemoveSymbolData` | src/EventSubscription.cpp:263-271 | Takes exactly that symbol out of the table, once |
| `Subscriptions.EventSubscriptionConnectionContext.AddSymbols` | src/EventSubscription.cpp:445-478 | The subscription holds the non-empty names as well; both directions of the index agree |
| `Subscriptions.EventSubscriptionConnectionContext.RemoveSymbols` | src/EventSubscription.cpp:482-513 | It holds them no more, and this does not fail |
| `Subscriptions.EventSubscriptionConnectionContext.CloseSubscription` | src/EventSubscription.cpp:196-221 | It holds nothing, has no listeners and is deleted, is out of the context if asked, and this does not fail |
| `Subscriptions.EventSubscriptionConnectionContext.CountIsUse` | src/EventSubscription.hpp:35-40 | In every reachable state the count of a symbol is the number of its holders and of dispatches in progress, and it is in the table, not deleted, exactly while there are any |
| `Subscriptions.EventSubscriptionConnectionContext.SubscriptionsAre` | src/EventSubscription.cpp:445-513 | The subscriptions of a symbol are exactly those that hold its name |
| `Subscriptions.EventSubscriptionConnectionContext.CallListeners` | src/EventSubscription.cpp:722-749 | All listeners of a subscription are called, or none, by whether it holds the symbol when its turn comes, whatever its listeners then do |
| `Subscriptions.EventSubscriptionConnectionContext.Release` | src/EventSubscription.cpp:785-788 | The end of a dispatch: the symbol goes exactly when nobody holds it and no other dispatch uses it |
| `Subscriptions.EventSubscriptionConnectionContext.PassEvent` | src/EventSubscription.cpp:753-789 | Whatever the listeners do, also to this symbol, the index stays valid, the symbol stays until the end and dispatches in progress are as before |
| `Subscriptions.EventSubscriptionConnectionContext.ProcessEvent` | src/EventSubscription.cpp:791-829 | The same for the whole dispatch; it fails for a type that is none of the 14; when listeners change nothing, the calls made are each listener of every subscription that holds the symbol and wants the type, and for an order lists its source or none, once, and those that hold the wildcard too once more |
| `Subscriptions.WildcardAlone` | src/EventSubscription.cpp:722-727 | A subscription to the wildcard alone wants an event and is not called |
| `Subscriptions.WildcardTwice` | src/EventSubscription.cpp:808-827 | One to the wildcard and the symbol: each of its listeners is called twice, and nobody else |
| `Subscriptions.OtherSourceUnheard` | src/EventSubscription.cpp:766-777 | An order of a source that a subscription does not list reaches none of its listeners |
| `Subscriptions.ListedSourceHeard` | src/EventSubscription.cpp:766-777 | An order of a source that it lists reaches each of them once |
| `Subscriptions.OtherTypeHeard` | src/EventSubscription.cpp:778-780 | An event of another type that it wants reaches each of them once, whatever sources it lists |
| `Subscriptions.OtherTypeUnheard` | src/EventSubscription.cpp:761-764 | An event of a type that it does not want reaches none |
| `Base64.EncodedLength` | src/DXAlgorithms.c:481-483 | The allotted length is exactly the length of the encoding |
| `Base64.Encode` | src/DXAlgorithms.c:345-417 | Succeeds if and only if the encoding fits, fills it exactly, and terminates it when there is room |
| `Base64.Decode` | src/DXAlgorithms.c:433-479 | Succeeds if and only if the text is valid up to its first pad and the bytes fit; nothing behind them is touched |
| `Base64.DecodesExactly` | src/DXAlgorithms.c:433-479 | Said through the alphabet: a text decodes if and only if it has nothing but letters and newlines up to its first pad, and then to three bytes for four letters |
| `Base64.LettersInFigures` | src/DXAlgorithms.c:346 | The alphabet in figures |
| `Base64.TestVectors` | src/DXAlgorithms.c:345-417 | Three of the test vectors of section 10 of RFC 4648 |
| `Base64.RoundTrip` | src/DXAlgorithms.c:345-479 | Every byte string comes back from its encoding |
| `Base64.NewlinesDoNotCount` | src/DXAlgorithms.c:442-444 | Any text decodes like the text without its newlines, from every state of the decoder |
| `Base64.RoundTripWithNewlines` | src/DXAlgorithms.c:443-444 | It comes back from every text that is its encoding with any newlines put in |
| `RecordIds.RecordIdMap.GetRecordId` | src/DataStructures.c:526-546 | The id the last assignment to that server id gave, or -1, for every server id and every sequence of assignments |
| `RecordIds.LastAssignedIs` | src/DataStructures.c:526-546 | That id is the one of the assignment behind which there is no other to the same server id |
| `RecordIds.NoneAssigned` | src/DataStructures.c:526-546 | And -1 when there is none |
| `RecordIds.RecordIdMap.AssignServerRecordId` | src/DataStructures.c:549-580 | One more assignment in the history; the overflow array stays strictly sorted within its capacity |
| `RecordIds.RemembersInserted` | src/DataStructures.c:564-572 | A new pair put where the search says keeps the array the last assignments of the rare ids |
| `Properties.CompareAt` | src/DXAlgorithms.c:206-208 | The first place where two strings differ decides, and a prefix comes first |
| `Properties.CompareTransitive` | src/DXAlgorithms.c:206-208 | Comparison of strings is transitive, strictly if one step is |
| `Properties.OrderedForKey` | src/DXProperties.c:57-59 | Ascending keys are in order for the search of any key |
| `Properties.PropertyMap.Set` | src/DXProperties.c:91-126 | The map with the key set, sorted, unchanged for NULL arguments |
| `Properties.PropertyMap.Contains` | src/DXProperties.c:158-172 | Whether the map has the key |
| `Properties.PropertyMap.TryGetValue` | src/DXProperties.c:176-193 | The value of the key in the map, or none |
| `Properties.Clone` | src/DXProperties.c:63-81 | An equal map with an array of its own; a map cloned into itself is emptied |
| `Properties.SetMany` | src/DXProperties.c:130-154 | The map overridden by the other map, also when both are the same object |

## Left out

- Times of levels: each is that of an order listed on its side at its price, and the merge takes the latest; that
  it belongs to an order still live is not stated, since a removal leaves the time of the order that went.
- Rounding and not-a-number: prices and sizes are real numbers, sizes not negative. The snapshot reset writes NaN
  prices into unused levels, which the model fills with zero.
- SourceRuns.FinalSidesAreExact: for orderly runs, because the code treats orders without a side in two ways; all
  runs of orders with a side are orderly, and OrderlyExactly says which others are. Sizes of listed orders are not
  negative.
- BookMerge.UpdateOneSide: the sides merged are given to the method as values besides the objects, which only its
  proof uses.
- Subscribing, consumers and listeners of books, their locks and the order of their notification; each guarded
  operation is one step, and one book takes the updates of its sources.
- MarketListener.Replay: which events call the listeners is told by its result and, event by event, by Listen; the
  cells of the book are not part of the market as a value.
- MarketListener.Open: all sources of the book are new; a book may also join sources that are at work already, and
  then stays empty until one of them publishes.
- Allocation failure and logging: allocation succeeds.
- SourceTables.SourceTable.AddSource: a table that is more than half full ends in a dereference of an empty slot, so
  re-insertion into a larger table is not modelled; the hash of symbol and source is any function.
- Lengths and positions beyond a C int: writers require that position and bytes add up within it, as the code's own
  additions do; the check of `dx_write_utf_string` for a length that wrapped around is then never met.
- BufferedInput.InBuffer.ReadUtfSequence: for lengths counted in bytes; the same function can also count characters.
- Subscriptions.EventSubscriptionConnectionContext.ProcessEvent: the exact calls are stated for listeners that
  change nothing; for all others, what CallListeners and Release say of each turn.
- Wide characters of 32 bits: strings are sequences of 16-bit units without their terminating zero.
- dx_read_long, dx_write_double, byte arrays, lines and symbol codes: plain or not faithful inverses.
- Heartbeat times and marks beyond their transport.
- Closing a subscription or changing its listeners inside a listener: the code iterates over both. Until it is
  closed, listeners, event types and sources of a subscription are fixed, the event types being a set of type
  numbers instead of a mask.
- The last events stored with a symbol, and events received while no symbol is subscribed beyond finding none.
- NULL maps in the property functions: the map is the receiver.
- `src/RegionalBook.c`: its merge marks a region as used when it is tried, and loses it when a better one follows.
- Sockets, threads, configuration, address parsing, candles, record fields and event buffers.
