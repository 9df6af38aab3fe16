# Verified models of the game server's stateful core

The server keeps a large amount of state alive for weeks: nested containers with cached weights,
money, market offers, trades, timers, creature conditions and caches, all of which is written to
and read back from byte streams and database rows. This project models that state in Dafny and
proves what the server relies on. Code that works on objects is modelled as classes on a mutable
heap, loops as loops; each such method is proved against a specification on values, and the
lemmas about those specifications are the main results.

Where to start reading, by component:

* **The item forest** (`Forest`, `ForestTree`, `Weights`, `ListLaws`, `Ledger`, `Queries`,
  `Moves`, `MoveLaws`, `AddItems`, `LostItems`). Items and
  containers are heap objects with parent links, item lists and a cached weight. Every list operation,
  guarded as its callers guard it, keeps the parent relation an acyclic forest and every cached weight
  equal to the recursive one (`ForestTree.RunKeepsForest`), which is the weight of everything below,
  stacks by their count (`Weights.TotalIsMassBelow`). Moving an item takes exactly the
  reported count out of the source on every return path, and all of it arrives but in one exactly
  described case; the recursive spill of a stack never fails half way unless stacking is ignored.
  `LostItems` builds the two exceptions.
* **Money** (`Money`, `Purse`, `Payment`). Paying takes coins worth exactly the amount, change
  included; handing money out loses nothing exactly when the number of the most valuable coins fits
  32 bits. What is handed out, change included, is stored when the container has room for it.
* **The market** (`Market`, `MarketStock`, `MarketHeap`). Over every run of create, accept, cancel and expire the
  money of all players, of all open buy offers and of the fees stays the same up to an exactly
  described excess; likewise every ware; `Market.AcceptBuyLaw` and its like say who pays and who gets what.
  `MarketStock` finds and removes the wares
  on the item heap; `MarketHeap` delivers wares and collects payments there.
* **Iteration and persistence** (`Iteration`, `ItemRows`, `Streams`, `MapSerialize`, `Conditions`,
  `ConditionStream`, `Otb`, `Base32`, `KnownForms`). The breadth-first iterator visits every item once; five printers
  and parsers are inverse to one another, on values and on the heap; `KnownForms` says which bytes they write.
* **Time and protocols** (`DecayWheel`, `Trade`). An item decays on exactly the tick its duration
  gives; trades keep their links symmetric, two players can always come to a two-sided exchange
  (`Trade.TwoOffers`, `Trade.TwoAccepts`), and nothing can close a running transfer.
* **Creatures** (`ConditionLedger`, `WalkCache`). Speed, skills and statistics are the sum over
  the active conditions in every reachable state, and a timed condition that is not renewed ends
  (`ConditionLedger.TimedOut`); the shifted walk cache agrees with a full recomputation.
* **Combat areas** (`CombatArea`). Turning matrices, cones, and the positions an area covers.

`Options` holds the option type the modules share.

## Where the code does not do what it seems to promise

Each of these keeps the code as it is; the lemmas named give the failing case and, where the failure
depends on something, the exact condition.

* The walk cache is wrong after every step south-west or south-east: `getDistanceY` is an absolute
  distance, so the comparison with 0 picks the same rows in both directions.
  `WalkCache.RightIffNotSouthDiagonal`, `WalkCache.SouthDiagonalDisagrees`.
* A buy offer that was partly accepted between the moment its row was selected for expiry and the
  moment the row is handled is paid back for the whole selected amount.
  `Market.ExpiryKeepsMoneyIff`, `Market.StaleExpiryMakesMoney`. A sell offer in the same position
  creates wares, and one whose item is unknown, not pickupable or owned by a player that cannot be
  loaded loses them: `Market.ExpiryKeepsWaresIff`. A cancelled or accepted offer loses its units when
  the item can no longer be picked up: `Market.CancelKeepsWaresIff`, `Market.AcceptKeepsWaresIff`.
* `addMoney` keeps the number of coins in 32 bits; a larger amount is cut. `Money.PaidInFullIff`,
  `Money.GreatSumVanishes`.
* With auto-stacking ignored and no free slot, `internalAddItem` loses the rest of a stack; the
  contract of `AddItems.InternalAddItem` says exactly when and how much. `LostItems.SpillLoses`.
* With the no-limit flag, `internalMoveItem` may choose a stack that lies past the capacity of an
  overfull container; what does not fit on that stack is lost, as `Moves.Arriving` says.
  `LostItems.MoveLoses`.
* A player that was asked to trade may accept before offering anything; when the other side accepts
  too, the exchange runs with an item on one side only. `Trade.OneSidedExchange`. Exchanges are
  two-sided exactly when no accept comes from ACKNOWLEDGE: `Trade.ExchangeTwoSidedIff`,
  `Trade.AcceptKeepsOffersIff`, and over runs `Trade.RunTwoSided` and `Trade.RunEarlyLeads`.
* A file holding only an empty root node is refused for its length. `Otb.BareRootRefused`,
  `Otb.ParseInvertsEncode`.
* A text of more than 65535 bytes is saved as an empty one. `Streams.StringReadBack`.
* Conditions lose what is not saved of them: percentages (`ConditionStream.PercentageLost`),
  drunkenness (`ConditionStream.DrunkennessLost`), of damage conditions the interval, the owner and
  the rest of their setup (`ConditionStream.TickIntervalLost`), and what has passed of a regeneration
  or soul interval. A list of conditions comes back unchanged exactly when, in every persistent one,
  all those have their initial values and a damage condition lasts as long as its intervals:
  `ConditionStream.LoadsUnchangedIff`.
* An attributes condition that takes over another one may enable the defence but never disables it
  (`ConditionLedger.DefenceComesBack`), and one that starts or ends sets the flag without regard to
  others. The flag agrees with the active conditions exactly under `ConditionLedger.AddDefenceIff`,
  and over runs under `ConditionLedger.RunDefenceIff`.
* `internalRemoveItem` removes an item from the decay list only if it can decay, and an item that has
  been taken out cannot (`src/item.cpp:1275-1279`), so that it never does. The wheel drops such an
  item when it next looks at its bucket: `DecayWheel.TakenOutLeaves`.

## Model

| member | source | states |
|---|---|---|
| `Forest.Item.UpdateItemWeight` | src/container.cpp:133-139 | the weight difference reaches the container and every container above it, modulo 2^32, and nothing else |
| `Forest.Item.GetThingIndex` | src/container.cpp:613-623 | the position of an item in the list, or -1 exactly when it is not listed |
| `Forest.Item.AddThing` | src/container.cpp:499-518 | past the capacity nothing happens; otherwise the item is listed in front, has its parent set and its weight booked all the way up, and the heap stays well formed |
| `Forest.Item.InternalAddThing` | src/container.cpp:704-719 | puts the item in front of the list and books its weight up to the root |
| `Forest.Item.AddItemBack` | src/container.cpp:520-529 | puts the item at the end of the list and books its weight up to the root |
| `Forest.Item.UpdateThing` | src/container.cpp:531-552 | another kind and count for a listed item, with the weight difference booked all the way up |
| `Forest.Item.ReplaceThing` | src/container.cpp:554-576 | the item at an index gives way to another one and becomes a root; weights above change by the difference |
| `Forest.Item.RemoveThing` | src/container.cpp:578-611 | part of a stack, or the whole item, leaves the container; weights above follow |
| `Forest.AttachedValid` | src/container.cpp:499-529 | hanging a loose item anywhere keeps links consistent, the forest acyclic, stacks in bounds and every cached weight right |
| `Forest.RemovedValid` | src/container.cpp:597-610 | taking an item out keeps all of that |
| `Forest.ReplacedValid` | src/container.cpp:554-576 | replacing an item keeps all of that |
| `Forest.RecountedValid` | src/container.cpp:531-552 | changing the kind and count of a listed item keeps all of that |
| `Forest.TakenValid` | src/container.cpp:578-611 | removing part of a stack or a whole item keeps all of that |
| `Forest.BumpRepairs` | src/container.cpp:133-139 | one container off by some weight is repaired by propagating the difference along its parents, at any depth |
| `ForestTree.CachedWeightIsRecursive` | src/container.cpp:133-144 | the cached weight of every container is the recursive sum of everything below it, modulo 2^32 |
| `ForestTree.StepKeepsValid` | src/container.cpp:499-611 | each of the five list operations, guarded as its callers guard it, keeps the heap well formed |
| `ForestTree.RunKeepsForest` | src/container.cpp:499-719 | after any sequence of operations the parent relation is an acyclic forest that agrees with the lists, and every cached weight is the recursive weight |
| `Weights.TotalIsMassBelow` | src/item.cpp:884-891 | in every well-formed heap the cached weight of a container is, modulo 2^32, the sum over all items below it of the weight of their kind, times the count for stacks |
| `Weights.StackMoves` | src/container.cpp:531-552 | topping a listed stack up, or taking some off it, makes every container above it heavier or lighter by exactly the weight of those items, and no other container |
| `Weights.ItemArrives` | src/container.cpp:499-529 | an item that is put in makes every container above it heavier by its own weight and what it holds |
| `Weights.ItemLeaves` | src/container.cpp:597-610 | an item that is taken out makes them lighter by that |
| `Weights.SplitMovesWeight` | src/game.cpp:1194-1227 | splitting m items off a stack into another container moves m times their weight from the one chain of containers to the other |
| `ListLaws.AttachedLists` | src/container.cpp:499-529 | an item put in stands at its place with the others around it in order, has the container as its parent, and every other list and parent stays |
| `ListLaws.RemovedLists` | src/container.cpp:597-610 | an item taken out leaves the others in order and becomes a root |
| `ListLaws.ReplacedLists` | src/container.cpp:554-576 | an item put in the place of another one, which becomes a root |
| `ListLaws.TakenLists` | src/container.cpp:578-611 | part of a stack lowers its count and leaves all lists; the whole of it, or anything else, leaves the list |
| `Ledger.AttachedBooked` | src/container.cpp:499-529 | hanging an item adds its count to one container and one kind and changes no other count anywhere |
| `Ledger.TakenBooked` | src/container.cpp:578-611 | removing a count takes exactly that count from one container and one kind |
| `Ledger.RecountedBooked` | src/container.cpp:531-552 | changing a stack's count changes exactly its own container's count of its kind |
| `Queries.IsAbove` | src/container.cpp:296-309 | the loop over the parents finds an item exactly when it is the container itself or lies above it |
| `Queries.GetTopParent` | src/item.cpp:265-301 | the item just below the root of the parent chain, or the item itself when it is the root |
| `Queries.QueryAdd` | src/container.cpp:253-336 | which answer a container gives before an item is added, in the order of the checks |
| `Queries.QueryMaxCount` | src/container.cpp:338-387 | how many items fit, counting free slots and the room on equal stacks, and the answer that goes with it |
| `Queries.QueryRemove` | src/container.cpp:389-419 | whether a count of an item may be taken out |
| `Queries.QueryDestination` | src/container.cpp:421-492 | where an item really goes: the parent, a container lying at the index, a stack to merge with, or the end |
| `Moves.InternalMoveItem` | src/game.cpp:1069-1279 | on every return path exactly the reported count of one kind leaves the source and arrives at the resolved destination and nothing else changes; when the move goes ahead, which answer is given, how many items move and arrive; stacks stay within 100, and lists within capacity without the no-limit flag |
| `LostItems.MoveLoses` | src/game.cpp:1207-1227 | a concrete heap on which two coins leave and one arrives: without a limit, onto a stack past the capacity |
| `Moves.ResolveDestination` | src/game.cpp:1088-1100 | the walk from container to container settles after at most two questions |
| `Moves.PlanFacts` | src/game.cpp:1102-1192 | what the checks have established once they let a move go ahead: the count, the room and the absence of a cycle |
| `MoveLaws.Anywhere` | src/container.cpp:421-492 | an item that may go anywhere in an open container goes to that container, onto an equal stack with room if it is to be stacked and comes from elsewhere, and past all stacks only if none is like that |
| `MoveLaws.PlaceLaw` | src/container.cpp:421-492 | an item dropped on a place goes into the container above, into the container that lies there, onto the stack that lies there, or anywhere when the place is past the capacity |
| `MoveLaws.SingleMoves` | src/game.cpp:1069-1192 | a single item moves, without an error, exactly when it lies in the source, may be moved and picked up, belongs to no store, does not hold the destination, and the destination is open with a free slot or no limit |
| `MoveLaws.StackMoves` | src/game.cpp:1102-1192 | of a stack as many move as were asked for and have room on free slots and the stack they are merged with; something moves exactly when the item and the destination let it pass and there is room for one |
| `Moves.MoveStack` | src/game.cpp:1194-1227 | a stack is split and merged: the moved count is conserved |
| `Moves.MoveWhole` | src/game.cpp:1194-1227 | a whole item changes place: its count is conserved and its parent is the destination |
| `AddItems.InternalAddItem` | src/game.cpp:1288-1369 | the destination's count of the kind grows by the item's count less an exactly described remainder, which is 0 unless stacking is ignored with no free slot; refused calls change nothing; the recursion ends |
| `LostItems.SpillLoses` | src/game.cpp:1320-1334 | a concrete heap on which a successful call loses one of two coins, with auto-stacking ignored |
| `AddItems.RestIsWelcome` | src/game.cpp:1326-1334 | the rest of a stack that did not fit on the first one is accepted again: the spill cannot fail half way |
| `AddItems.SpillOver` | src/game.cpp:1320-1334 | fills the stack at the destination and adds the rest as a new item |
| `AddItems.WelcomeLaw` | src/container.cpp:253-387 | a loose item that may go anywhere is taken in exactly when the container is open, the item can be picked up, belongs to no store and does not hold the container, and there is no limit or its whole count fits on free slots and equal stacks |
| `Money.InternalRemoveItem` | src/game.cpp:1371-1418 | when it succeeds, and that exactly the asked count of one kind leaves one container |
| `Money.HandOut` | src/game.cpp:1580-1590 | a new stack of coins is stored exactly when the container takes it in, and dropped otherwise |
| `Money.EmitCoins` | src/game.cpp:1578-1592 | a number of coins in stacks of at most 100, all of them stored when there is a free slot for every stack or no limit |
| `Money.AddMoney` | src/game.cpp:1566-1594 | of every kind exactly the coins the amount makes are stored or dropped, in stacks of at most 100, worth the amount less the part that no coin stack could carry; all of it is stored when the container is open, the coins are ordinary and there is no limit or a free slot for every stack |
| `Money.DearestFirst` | src/game.cpp:1576-1580 | as many of the dearest coins as go into the amount, and the remainder in the same way from the others |
| `Money.PaidInFullIff` | src/game.cpp:1566-1594 | all money is handed out exactly when the number of the most valuable coins needed fits 32 bits, given a coin of worth 1 |
| `Money.GreatSumVanishes` | src/game.cpp:1566-1594 | a concrete amount of which nothing at all is handed out |
| `Purse.SameCountsSameWorth` | src/player.cpp:4611-4643 | the worth of a container is fixed by how many items of each kind it holds |
| `Payment.GatherMoney` | src/game.cpp:1497-1540 | the containers found are exactly the cylinder and all containers below it, and the entries exactly the coins below it, each once, in ascending order of worth |
| `Payment.FoundExactly` | src/game.cpp:1497-1540 | the search ends with exactly the root and the containers below it, at any depth |
| `Payment.CoinsExactly` | src/game.cpp:1497-1540 | ... and with exactly the coins below it |
| `Payment.Pay` | src/game.cpp:1546-1562 | takes the cheapest stacks: all before the last one are gone and would not have been enough, the last one gives the fewest coins that cover the rest, none behind it is gone or has got less; the coin worth with the dropped change falls by exactly the amount |
| `Payment.RemoveMoney` | src/game.cpp:1487-1564 | succeeds exactly when the cylinder and all containers below it hold enough; their coin worth with the dropped change falls by exactly the amount, and the cheapest stacks pay it; nothing is dropped when the cylinder has room for the stacks of change; on failure nothing changes |
| `Payment.CoinsNeeded` | src/game.cpp:1551-1557 | the number of coins taken from the last stack covers the debt, is the smallest that does, and never exceeds the stack |
| `Iteration.QueueIsLevelOrder` | src/container.cpp:730-763 | serving containers from a queue lists a tree level by level |
| `Iteration.QueueVisitsAll` | src/container.cpp:745-763 | the queue order visits the same items, equally often, as the recursive order |
| `Iteration.ContainerIterator.Advance` | src/container.cpp:745-763 | moves to the next item of the breadth-first order |
| `Iteration.HoldsDescendantsOnce` | src/container.cpp:730-763 | every item below the container is visited exactly once and nothing else is |
| `Iteration.HoldingCountIsBelow` | src/container.cpp:186-193 | the number of visited items is the number of items below the container |
| `Iteration.GetItemHoldingCount` | src/container.cpp:186-193 | counts the items below the container, at any depth |
| `Iteration.IsHoldingItem` | src/container.cpp:195-203 | finds an item exactly when it lies below the container, at any depth |
| `Iteration.GetItems` | src/container.cpp:654-667 | lists the items below the container breadth first |
| `ItemRows.SaveItems` | src/iologindata.cpp:557-611 | the rows describe the forest: every child's row names its parent's row, children in order, numbers counting up from 101 |
| `ItemRows.LoadItems` | src/iologindata.cpp:904-928 | makes one loose item per row, whatever the order of the rows |
| `ItemRows.RebuildItems` | src/iologindata.cpp:425-449 | hanging the items from the highest number down, each in front of its parent's list, rebuilds every list in order |
| `ItemRows.LoadPlayerItems` | src/iologindata.cpp:425-545 | the rebuilt item of every row holds exactly what was saved for it, at every depth, and the roots keep their slots and order |
| `ItemRows.ParentNamed` | src/iologindata.cpp:436-447 | a row number of 101 or more names a row that comes earlier, so it never collides with a root slot |
| `ItemRows.SaveThenLoad` | src/iologindata.cpp:425-611 | saving any forest and loading it gives the same forest: shape, order of siblings and root slots |
| `KnownForms.RowForm` | src/iologindata.cpp:557-611 | the i-th row has number 101 + i, its parent's number, and the item's kind and count |
| `Streams.ReadBack` | src/fileloader.h:68-77 | a number that fits its bytes is read back from them |
| `Streams.PropWriteStream.WriteString` | src/fileloader.h:136-145 | appends the length and the text, or an empty string when the text is too long |
| `Streams.PropStream.Read` | src/fileloader.h:68-77 | reads the next bytes as a number, or fails and moves nowhere |
| `Streams.PropStream.ReadString` | src/fileloader.h:79-96 | succeeds exactly when a whole string is there, and stops right behind it |
| `Streams.PropStream.Skip` | src/fileloader.h:98-105 | passes over bytes, or fails and moves nowhere |
| `Streams.StringReadBack` | src/fileloader.h:79-145 | a written string is read back exactly when it has at most 65535 bytes; what follows it is never touched |
| `MapSerialize.SaveItem` | src/iomapserialize.cpp:201-219 | the bytes of an item on the heap and of everything below it, children last to first |
| `MapSerialize.LoadAfterSave` | src/iomapserialize.cpp:118-219 | parsing the bytes of any nested item, followed by anything, gives the item back and stops right behind it |
| `MapSerialize.KidsAfterSave` | src/iomapserialize.cpp:100-219 | writing children in reverse and inserting at the front cancel, at every depth |
| `MapSerialize.AttrsReadBack` | src/item.cpp:704-716 | reading attributes that were written arrives at what follows them |
| `MapSerialize.UnserializeAttr` | src/item.cpp:704-716 | the attribute loop accepts and rejects exactly as the parser function says, and stops at the same place |
| `MapSerialize.LoadItem` | src/iomapserialize.cpp:118-151 | on any bytes: fails exactly when the bytes are malformed, with the heap as before; otherwise one new item with the parsed content hangs in front of the parent's list and nothing else has changed |
| `MapSerialize.LoadContainer` | src/iomapserialize.cpp:100-116 | reads the announced number of items and the closing zero byte, or leaves everything outside the container alone |
| `MapSerialize.SaveThenLoadItem` | src/iomapserialize.cpp:118-219 | an item saved from the heap and loaded again is an exact copy, whatever follows its bytes |
| `KnownForms.NumbersAndTexts` | src/fileloader.h:68-145 | numbers are little-endian and texts carry their length in two bytes |
| `KnownForms.HouseItemForm` | src/iomapserialize.cpp:201-219 | a container is written with tag 23, the number of its items in four bytes, the items from the last to the first, and a zero byte |
| `KnownForms.ZeroByteNeeded` | src/iomapserialize.cpp:100-116 | a container whose items are not followed by a zero byte is refused |
| `Conditions.SignedBack` | src/condition.cpp:127-146 | a signed 32-bit number survives being written as an unsigned one |
| `ConditionStream.Serialize` | src/condition.cpp:127-146 | appends the encoding of the condition, field by field, for every condition class |
| `ConditionStream.SerializeAttributes` | src/condition.cpp:410-431 | the skills, stats, defence flag and special skills, in that order |
| `ConditionStream.SerializeDamage` | src/condition.cpp:1185-1199 | the delay flag, the periodic damage and the intervals in order |
| `ConditionStream.SerializeSpeed` | src/condition.cpp:1560-1578 | the speed difference and the four formula variables |
| `ConditionStream.UnserializeProp` | src/condition.cpp:68-125 | a field is either read and applied, or fails without changing anything but the tag already read |
| `ConditionStream.DamageProp` | src/condition.cpp:1156-1183 | a damage condition's own fields; every interval extends its duration |
| `ConditionStream.AttributesProp` | src/condition.cpp:396-408 | the next skill, stat or special skill is filled in |
| `ConditionStream.RegenerationProp` | src/condition.cpp:841-853 | a regeneration condition's own fields |
| `ConditionStream.LightProp` | src/condition.cpp:1818-1842 | a light condition's own fields, colour and level cut to eight bits |
| `ConditionStream.Unserialize` | src/condition.cpp:57-66 | reads fields up to the end mark, the end of the data, or the first one that fails |
| `ConditionStream.CreateCondition` | src/condition.cpp:225-283 | creates a condition exactly when its six leading fields are there in order and its type is known |
| `ConditionStream.OneBack` | src/condition.cpp:57-146 | one saved condition of any class is read back, and the reader stops right behind its end mark |
| `KnownForms.HeadForm` | src/condition.cpp:127-146 | the six leading fields of every condition with their tags |
| `KnownForms.TailForm` | src/condition.h:14-45 | the tags of the fields of each class, in order |
| `KnownForms.PlainForm` | src/condition.cpp:127-146 | a plain condition byte for byte |
| `KnownForms.UnknownFieldDrops` | src/condition.cpp:57-97 | a field the class does not know drops the condition, and reading goes on behind its tag |
| `ConditionStream.IntervalsRead` | src/condition.cpp:1170-1180 | the damage list comes back in order, and the duration is the intervals added up |
| `ConditionStream.ElapseIsSum` | src/condition.cpp:1170-1180 | that duration is the plain sum whenever the sum fits a signed 32-bit number |
| `ConditionStream.AttributesRestore` | src/condition.cpp:396-431 | an attributes condition gets its three arrays and its flag back, and nothing of what is not saved |
| `ConditionStream.AttributesBackIff` | src/condition.cpp:396-431 | an attributes condition comes back as it was exactly when it has no percentages |
| `ConditionStream.PercentageLost` | src/condition.cpp:396-431 | a condition with a percentage that comes back without it |
| `ConditionStream.DrunkennessLost` | src/condition.h:423-447 | a drunkenness of 50 that comes back as 25 |
| `ConditionStream.TickIntervalLost` | src/condition.cpp:1156-1199 | periodic damage every second with an owner that comes back as nobody's, every two seconds |
| `ConditionStream.LostAlone` | src/iologindata.cpp:277-637 | any persistent condition that does not meet that condition comes back as another one |
| `ConditionStream.SaveConditions` | src/iologindata.cpp:630-637 | the persistent conditions, each closed by an end mark |
| `ConditionStream.LoadConditions` | src/iologindata.cpp:282-290 | the load loop on any bytes: what it restores, and that it keeps going after a condition that fails |
| `ConditionStream.LoadAfterSaveAll` | src/iologindata.cpp:277-637 | loading what was saved restores the persistent conditions in reverse order with every saved field and consumes the whole stream |
| `ConditionStream.LoadsUnchangedIff` | src/iologindata.cpp:277-637 | what is loaded is what was saved, last one first, exactly when every field that is not saved has its initial value in every persistent condition - percentages, drunkenness, the setup of a damage condition, what has passed of a regeneration or soul interval - and every damage lasts as long as its intervals |
| `ConditionStream.SaveThenLoadConditions` | src/iologindata.cpp:277-637 | the same for the condition objects themselves |
| `ConditionLedger.Creature.ChangeSpeed` | src/game.cpp:3772-3777 | shifts the variable speed, wrapping at 32 bits |
| `ConditionLedger.Creature.ShiftSkills` | src/player.h:516-522 | adds or takes out every skill and special skill of a condition; statistics are shifted the same way |
| `ConditionLedger.Creature.StartCondition` | src/condition.cpp:285-291 | a condition that starts adds its share to the totals and sets the defence flag; one that cannot start changes nothing |
| `ConditionLedger.Creature.UpdateSpeed` | src/condition.cpp:1610-1639 | a newer speed condition replaces the old share by its own |
| `ConditionLedger.Creature.UpdateAttributes` | src/condition.cpp:370-394 | a newer attributes condition takes the old shares out, which may enable the defence, and puts its own in, which never disables it |
| `ConditionLedger.Creature.AddCondition` | src/creature.cpp:1163-1192 | postpones haste under paralysis, updates the condition of the same key, or starts and lists the new one; haste and paralysis cancel each other |
| `ConditionLedger.Creature.RemoveCondition` | src/creature.cpp:1207-1259 | ends every matching condition in turn, but leaves a paralysis while a step is under way |
| `ConditionLedger.Creature.ExecuteConditions` | src/creature.cpp:1317-1336 | every condition is given the round in turn, and those that are over are erased and ended |
| `ConditionLedger.Creature.ExecuteOne` | src/condition.cpp:1295-1333 | one round of a condition: its ticks, its first damage interval, its periodic damage, its light, its regeneration, and whether it lives on |
| `ConditionLedger.Creature.HasCondition` | src/creature.cpp:1338-1360 | whether a condition of the type is in effect and not suppressed |
| `ConditionLedger.AddKeeps` | src/creature.cpp:1163-1192 | adding a condition keeps one condition per type, id and subId, and what else is in every total |
| `ConditionLedger.RemovedKeeps` | src/creature.cpp:1207-1259 | removing conditions keeps the same |
| `ConditionLedger.ExecuteKeeps` | src/creature.cpp:1317-1336 | a round of all conditions keeps the same |
| `ConditionLedger.RoundLaw` | src/creature.cpp:1317-1336 | a round keeps, in their order, exactly the conditions that never end or end later, with their ticks run down to no less than 0, and takes the shares of all others out of the totals; a damage condition in its field is put off, and only such a one may be spared |
| `ConditionLedger.TimedOut` | src/condition.cpp:154-163 | a timed condition that is not renewed is not listed after a round past its end, whatever happens before that round and after it |
| `ConditionLedger.RemoveLaw` | src/creature.cpp:1207-1259 | removing takes exactly the conditions of the type, and of the id if one is given, out of the list and their shares out of the totals; a paralysis stays while a step is under way |
| `ConditionLedger.AddNewLaw` | src/creature.cpp:1163-1192 | a condition of a new key joins the end of the list, with its end set from its ticks, and its share joins the totals |
| `ConditionLedger.UpdateLaw` | src/condition.cpp:311-326 | a condition of a listed key takes over, with its ticks, end and share, or changes nothing: a speed unless it would end an endless one, a drunkenness if it is greater, the others if they do not end earlier |
| `ConditionLedger.DamageUpdateLaw` | src/condition.cpp:1201-1215 | a damage condition takes over when it is forced to, or hits harder and would not end an endless one |
| `ConditionLedger.PostponeLaw` | src/creature.cpp:1163-1192 | haste is put off exactly while a paralysis is in effect and a step is under way |
| `ConditionLedger.FilledIn` | src/condition.cpp:433-475 | what is not given is filled in at the start: the end, a rolled speed, a player's percentages, the pace of a light |
| `ConditionLedger.DamageStarts` | src/condition.cpp:1276-1293 | a damage condition takes effect exactly when its first strike goes through |
| `ConditionLedger.RunKeepsLedger` | src/creature.cpp:1163-1336 | in every reachable state at most one condition exists per type, id and subId, and speed, every skill and every statistic equal the sum over the active conditions plus what was added elsewhere |
| `ConditionLedger.AddDefenceIff` | src/creature.cpp:1163-1192 | adding a condition keeps the defence flag right exactly when it fits: one that takes over another must not be the first to disable the defence, nor replace one of several that do; an attributes condition that starts must disable it itself unless none does |
| `ConditionLedger.RunDefenceIff` | src/creature.cpp:1163-1336 | through a whole run the flag is right exactly when every condition added fits and whenever a disabling one ends none is left |
| `ConditionLedger.DefenceComesBack` | src/condition.cpp:370-394 | a condition without defence, given again while it lasts, gives the defence back |
| `ConditionLedger.ParalysisEndsHaste` | src/creature.cpp:1030-1037 | a paralysis that takes effect leaves no haste in effect |
| `Otb.UnescapeInverts` | src/fileloader.cpp:90-105 | dropping the escape bytes gives back any property bytes that were escaped |
| `Otb.Loader.ParseTree` | src/fileloader.cpp:36-88 | the stack parser accepts exactly what the format function accepts, and its node store holds the parsed tree |
| `Otb.Loader.GetProps` | src/fileloader.cpp:90-105 | the unescaped bytes of a node, or false exactly when it has none |
| `Otb.StackIsLastChildren` | src/fileloader.cpp:36-88 | every node on the stack is the last child of the node below it |
| `Otb.AppendMovesNoStacked` | src/fileloader.cpp:48-62 | no node of the stack is a child of the innermost one or lies below such a child, so appending a child there moves nothing the stack points at |
| `Otb.OpenMore` | src/fileloader.cpp:48-62 | opening a child keeps the stack discipline and every finished node |
| `Otb.OpenLess` | src/fileloader.cpp:63-70 | closing the innermost node keeps the stack discipline and makes it the last finished child |
| `Otb.AcceptedIffBalanced` | src/fileloader.cpp:36-88 | a file is accepted exactly when its start and end marks match and no escape or type byte is missing |
| `Otb.ParseInvertsEncode` | src/fileloader.cpp:36-88 | parsing the encoding of any node tree recovers types, order of children and property bytes, with plain bytes behind it allowed |
| `Otb.BareRootRefused` | src/fileloader.cpp:13-19 | the one tree that does not survive: a root with nothing in it, refused for its length |
| `KnownForms.NodeForm` | src/fileloader.cpp:36-105 | the bytes of a root with an escaped property and one child |
| `Otb.NodeGivesProps` | src/fileloader.cpp:90-105 | the node that stands for a tree gives that tree's properties |
| `Otb.OpenFile` | src/fileloader.cpp:13-26 | a file is opened exactly when it is long enough and carries the expected identifier or none |
| `Otb.ParseEncoded` | src/fileloader.cpp:13-88 | writing a tree to a file and parsing it stores the tree from the root on |
| `DecayWheel.Game.StartDecay` | src/game.cpp:4546-4564 | an item that can decay is queued once; one without duration decays at once |
| `DecayWheel.Game.TurnBucket` | src/game.cpp:4583-4619 | looks at the next bucket item by item: which decay, which move one bucket on, which stay, which are dropped |
| `DecayWheel.Game.Cleanup` | src/game.cpp:4693-4701 | waiting items go to the bucket their duration gives |
| `DecayWheel.Game.CheckDecay` | src/game.cpp:4579-4621 | one whole tick of the wheel |
| `DecayWheel.TickCountsDown` | src/game.cpp:4579-4619 | every tick brings an item exactly one tick nearer; on the tick it is due it decays and leaves the wheel, and no sooner |
| `DecayWheel.DecaysOnDueTick` | src/game.cpp:4579-4701 | an undisturbed item sits in exactly one bucket until it is due and decays on that tick only, whatever other items do |
| `DecayWheel.DueOfNew` | src/game.cpp:4693-4701 | the due tick of a new item: 1 under a second, otherwise 4q or 4q+1 |
| `DecayWheel.NewItemDecays` | src/game.cpp:4546-4701 | an item that starts with d milliseconds decays on tick 1 if d < 1000, else on 4q if its remainder is under 875 and on 4q+1 otherwise; on no tick before, and until then it sits in exactly one bucket |
| `DecayWheel.TakenOutLeaves` | src/game.cpp:4583-4619 | an item that has been taken out stays in its bucket until that is looked at, at most four ticks later, and is gone then; it never decays |
| `Trade.Game.PlayerRequestTrade` | src/game.cpp:2654-2700 | an item that is offered already, or lies in or holds an offered one, is refused; otherwise the request goes through exactly when the two players are free for each other |
| `Trade.Game.InternalStartTrade` | src/game.cpp:2703-2732 | when a trade can start, and the new state of both players |
| `Trade.Game.PlayerAcceptTrade` | src/game.cpp:2734-2848 | accepting marks the player; when both have accepted the exchange runs and both forget the trade, whoever asks to close it meanwhile |
| `Trade.Game.InternalCloseTrade` | src/game.cpp:2928-2974 | both ends drop the trade and their offers, unless either is transferring |
| `Trade.StartSettled` | src/game.cpp:2703-2732 | starting keeps the invariant: symmetric partners, idle exactly without a partner, exact offers |
| `Trade.AcceptSettled` | src/game.cpp:2734-2848 | accepting keeps the invariant; transferring and both sides accepted never survive the step |
| `Trade.CloseSettled` | src/game.cpp:2928-2974 | closing keeps the invariant |
| `Trade.StartLaw` | src/game.cpp:2703-2732 | an offer is made exactly when its maker is idle or was asked by the other player, and the other is idle or has the maker as its partner; it changes these two and registers the item, and a refusal changes nothing |
| `Trade.CounterOffer` | src/game.cpp:2703-2732 | a player that was asked can offer any item nobody offers, and the partner's offer stays |
| `Trade.ThirdRefused` | src/game.cpp:2705-2713 | a start by or to a player that trades with a third one changes nothing |
| `Trade.TwoOffers` | src/game.cpp:2703-2732 | two players that offer two items to each other have both on offer |
| `Trade.TwoAccepts` | src/game.cpp:2734-2848 | ... and when both accept, the two items are exchanged and both are idle |
| `Trade.AcceptLaw` | src/game.cpp:2734-2848 | accepting without a trade or twice changes nothing; before the partner it marks the player; after the partner it ends the trade for both and for nobody else |
| `Trade.CloseLaw` | src/game.cpp:2928-2974 | closing makes both players idle and takes their items, and only theirs, off the list of offers |
| `Trade.CloseDuringTransfer` | src/game.cpp:2928-2932 | a close request of either side during the transfer changes nothing |
| `Trade.TransferSurvives` | src/game.cpp:2928-2974 | any number of close requests by anyone leave a running transfer alone |
| `Trade.RunSettled` | src/game.cpp:2703-2974 | the invariant survives every run |
| `Trade.ReachableSettled` | src/game.cpp:2703-2974 | the invariant holds in every state reached from nobody trading |
| `Trade.OneSidedExchange` | src/game.cpp:2741-2752 | a complete run from two idle players: one offers, the other accepts at once, the first accepts, and the exchange runs with an item on one side only |
| `Trade.ExchangeTwoSidedIff` | src/game.cpp:2741-2769 | an exchange has an item on both sides exactly when the accepting player had offered one and its partner has one; if whoever had accepted offers something, exactly when the accept does not come from ACKNOWLEDGE |
| `Trade.AcceptKeepsOffersIff` | src/game.cpp:2741-2750 | an accept leaves somebody that has accepted without an offer exactly when it comes from ACKNOWLEDGE and has to wait |
| `Trade.RunTwoSided` | src/game.cpp:2703-2974 | a run none of whose accepts comes from ACKNOWLEDGE exchanges two items every time |
| `Trade.RunEarlyLeads` | src/game.cpp:2703-2974 | a run with such an accept can go on, from there, to an exchange with one item |
| `WalkCache.Creature.UpdateMapCache` | src/creature.cpp:314-328 | every cell on the map shows its tile; cells off the map keep what they showed |
| `WalkCache.Creature.UpdateTileCache` | src/creature.cpp:330-345 | exactly the cell of the given position is set |
| `WalkCache.Creature.GetWalkCache` | src/creature.cpp:347-374 | 1 or 0 by the tile, 1 for the creature's own position, 0 on another floor, 2 out of sight |
| `WalkCache.Creature.OnCreatureMove` | src/creature.cpp:505-586 | the shifted and patched cache, cell by cell, in terms of the old one |
| `WalkCache.Creature.ShiftSouth` | src/creature.cpp:512-522 | a step north: rows move down, the first is looked up |
| `WalkCache.Creature.ShiftWest` | src/creature.cpp:536-558 | a step east: from the given row on cells move left, the last column is looked up |
| `WalkCache.PatchedAgrees` | src/creature.cpp:505-586 | after any step but a southward diagonal every cell shows what a full recomputation would show |
| `WalkCache.RightIffNotSouthDiagonal` | src/creature.cpp:505-586 | the update is right for every terrain exactly when the step is not a southward diagonal |
| `WalkCache.SouthDiagonalDisagrees` | src/creature.cpp:536-582 | for every southward diagonal step, a terrain and a cell that is shown wrongly |
| `WalkCache.RunAgrees` | src/creature.cpp:314-586 | through any run of tile changes, steps and teleports without a southward diagonal the cache agrees with the terrain |
| `CombatArea.Rotate90` | src/combat.cpp:1269-1276 | the strided copy fills the matrix of the quarter turn |
| `CombatArea.Rotate180` | src/combat.cpp:1278-1282 | the reversed cells and the opposite centre |
| `CombatArea.Rotate270` | src/combat.cpp:1284-1291 | the strided copy fills the matrix of the three-quarter turn |
| `CombatArea.Cell90` | src/combat.cpp:1269-1276 | the cell that lands in each place after a quarter turn |
| `CombatArea.Cell180` | src/combat.cpp:1278-1282 | reversing the flat array is a half turn of the matrix |
| `CombatArea.TwoQuartersAreHalf` | src/combat.cpp:1269-1282 | two quarter turns are a half turn, centre included |
| `CombatArea.ThreeQuartersUndo` | src/combat.cpp:1269-1291 | three quarters undo a quarter |
| `CombatArea.OffsetsTurn` | src/combat.cpp:1269-1291 | every offset from the centre turns with the matrix, so the centre moves with its cell |
| `CombatArea.CreateArea` | src/combat.cpp:20-51 | the cells marked 1 or 3 and the last one marked 2 or 3 as centre |
| `CombatArea.CreatedLaw` | src/combat.cpp:20-51 | cell by cell: covered exactly where the table says 1 or 3, with the centre at its last 2 or 3 |
| `CombatArea.ConeTable` | src/combat.cpp:1341-1374 | the table of a wave, value by value |
| `CombatArea.ConeShape` | src/combat.cpp:1341-1374 | the centre lies in the middle of the last row, and each row covers exactly the cells within its reach of the middle |
| `CombatArea.AreaCombat.SetupArea` | src/combat.cpp:1328-1339 | the given area for north and, for every direction, its turn |
| `CombatArea.AreaCombat.SetupCone` | src/combat.cpp:1341-1374 | a wave of any length and spread in all four directions |
| `CombatArea.DirectionsTurn` | src/combat.cpp:1328-1339 | the four areas lie a quarter turn apart, all the way around, and every offset from the centre turns with its area |
| `CombatArea.GetList` | src/combat.cpp:53-78 | exactly the positions in sight that lie under a covered cell when the centre lies on the target, in the order of the cells, row by row |
| `CombatArea.SeenInOrder` | src/combat.cpp:53-78 | the cells that are listed come in ascending order, each once, and none in sight is left out |
| `CombatArea.NothingTwice` | src/combat.cpp:53-78 | no position is listed twice, for any area of at most 2^16 rows and columns |
| `Base32.DecodeSecret` | src/iologindata.cpp:31-58 | n valid characters give floor(5n/8) bytes, the leading bits of the five-bit groups; anything else gives an empty key |
| `Base32.OneMore` | src/iologindata.cpp:37-55 | one character more keeps the wrapping buffer, the pending bits below eight and the key in step |
| `Base32.LowWord` | src/iologindata.cpp:36-53 | the byte pushed only depends on the 32 bits the buffer keeps |
| `Base32.DecodeInvertsEncode` | src/iologindata.cpp:31-58 | what decodes from the unpadded encoding of some bytes is those bytes |
| `Base32.EncodeThenDecode` | src/iologindata.cpp:31-58 | decoding inverts encoding for every byte string |
| `KnownForms.AlphabetForm` | src/iologindata.cpp:36-48 | A to Z and 2 to 7 stand for 0 to 31, and nothing else is in the alphabet (RFC 4648, section 6) |
| `KnownForms.SecretForm` | src/iologindata.cpp:31-58 | the test vector MZXQ of RFC 4648, section 10 |
| `Market.Exchange.PlayerCreateMarketOffer` | src/game.cpp:5117-5226 | which offers are refused, and what a created one takes from its owner |
| `Market.Exchange.PlayerCancelMarketOffer` | src/game.cpp:5228-5288 | only the owner's offer, paid back in money or wares |
| `Market.Exchange.PlayerAcceptMarketOffer` | src/game.cpp:5290-5466 | when an offer can be accepted, and what both sides give and get |
| `Market.Exchange.ProcessExpiredOffers` | src/iomarket.cpp:97-169 | every selected row in turn: the offer is closed first, then what the row says is returned |
| `Market.Exchange.Deliver` | src/game.cpp:5253-5282 | the loop over stacks of at most 100, or over single items, delivers the whole amount or, into an inbox that refuses the item, nothing |
| `Market.StepKeeps` | src/game.cpp:5117-5466 | in every step the money of the whole market changes by an exactly described excess and each ware by an exactly described gain |
| `Market.AcceptBuyLaw` | src/game.cpp:5316-5387 | whoever sells to a buy offer gets exactly the price into its bank and gives the units; the owner's money stays and it gets the units if they can be picked up; no other account changes |
| `Market.AcceptSellLaw` | src/game.cpp:5388-5466 | whoever buys from a sell offer pays exactly the price, coins first, and gets the units if they can be picked up; the owner's bank gets exactly the price and its units stay; no other account changes |
| `Market.AcceptRefused` | src/game.cpp:5290-5360 | any other attempt to accept changes nothing |
| `Market.CreateLaw` | src/game.cpp:5117-5226 | when an offer is created, what its owner pays for it in wares, price and fee, and that no other account changes; anything else changes nothing |
| `Market.CancelLaw` | src/game.cpp:5228-5288 | only the owner can cancel; it gets the price of what is open into its bank, or the units if they can be picked up, and no other account changes |
| `Market.ExpireLaw` | src/iomarket.cpp:97-169 | the first selected row closes its offer and its owner, and nobody else, gets what the row says |
| `Market.ExpireNothing` | src/iomarket.cpp:97-169 | a row whose offer has gone is passed over |
| `Market.SelectLaw` | src/iomarket.cpp:171-183 | selecting puts exactly the offers that are old enough, as they stand, behind those that wait, and changes nothing else |
| `Market.RunKeeps` | src/game.cpp:5117-5466 | the same over every run |
| `Market.TimelyRunConserves` | src/iomarket.cpp:97-169 | a run whose expiries find the amounts they were selected with keeps all money, and every ware if all items can be delivered |
| `Market.ExpiryKeepsMoneyIff` | src/iomarket.cpp:103-167 | an expiring buy offer keeps the money exactly when it was not partly accepted since its row was selected |
| `Market.ExpiryKeepsWaresIff` | src/iomarket.cpp:103-154 | an expiring sell offer keeps its ware exactly when it was not partly accepted since and its units can be delivered |
| `Market.CancelKeepsWaresIff` | src/game.cpp:5228-5288 | cancelling a sell offer keeps its ware exactly when the item can still be picked up |
| `Market.AcceptKeepsWaresIff` | src/game.cpp:5290-5466 | accepting an offer keeps its ware exactly when the item can still be picked up |
| `Market.StaleExpiryMakesMoney` | src/iomarket.cpp:97-183 | accepting part of a buy offer between its selection and its expiry makes the price of that part appear from nowhere |
| `Market.StepSound` | src/iomarket.cpp:194-260 | rows keep their own ids and existing owners, and a selected row differs from its offer at most by a larger amount |
| `Market.BalanceBound` | src/game.cpp:5117-5466 | no balance exceeds the money of the whole market, so none wraps while that fits 64 bits |
| `MarketStock.GetMarketItemList` | src/game.cpp:5480-5519 | enough distinct marketable units lying in the depot, the inbox or filled containers below them, with none to spare but in the last find; or nothing, when all of those hold fewer |
| `MarketStock.SearchedExactly` | src/game.cpp:5480-5519 | a search that finds too little has looked into the depot, the inbox and exactly the filled containers below them |
| `MarketStock.DirectStock` | src/game.cpp:5480-5519 | whatever lies in a searched container, is of the ware, has the attributes the market asks for and is no filled or resized container, counts as stock |
| `MarketStock.SellStacks` | src/game.cpp:5186-5196 | exactly the amount leaves the stacks found, out of the given containers |
| `MarketStock.SellSingles` | src/game.cpp:5197-5200 | every item found leaves its container, one of the given ones |
| `MarketStock.HandOverWares` | src/game.cpp:5176-5201 | either exactly the amount of the ware leaves the depot, the inbox and the filled containers below them, kind by kind, and nothing else does, or all of those hold too little and nothing changes |
| `MarketHeap.InboxAddItem` | src/inbox.cpp:11-31 | an inbox takes whatever can be picked up as a new item in front, and its count of the kind grows by the item's; anything else leaves the heap as it was |
| `MarketHeap.Deliver` | src/game.cpp:5253-5282 | the loop over new stacks or single items puts the whole amount into the inbox on the item heap, or nothing |
| `MarketHeap.Debit` | src/game.cpp:5203-5217 | a sum is paid exactly when coins and bank cover it, from the coins on the item heap first and the bank for the rest, as Market.Paid says |

## Left out

Deliberately weaker or narrower contracts:

- Moves.InternalMoveItem: does not model the exchange of the moved item with the one at the destination, because containers never answer that an exchange is needed.
- Queries.QueryAdd: does not model the store-item checks, browse fields, house invitations and the depot, inbox and player at the top of the chain, because those cylinders are not containers of the plain kind.
- Queries.QueryRemove: does not model the house invitation check, because houses are not part of this model.
- Forest.Item.UpdateThing: asks for a count of 1 to 100 for a stack, because the invariant bounds every stack and no caller makes another one.
- Forest.Item.RemoveThing: asks for a count between 1 and the stack's, because `queryRemove` refuses any other before it is called.
- Money.InternalRemoveItem: does not model `canRemove`, because it holds of every plain item; its call to the decay list is never reached, as said above.
- AddItems.InternalAddItem: does not start the decay of the added item, because the decay queue is modelled by itself in `DecayWheel`.
- ForestTree.RunKeepsForest: containers that stack are excluded, because the list operations assume a container is a single item.
- Forest.Item.UpdateItemWeight: weights wrap at 32 bits, as in the code; that they do not wrap is not claimed.
- ItemRows.SaveThenLoad: kind, count and attributes of a saved item are one opaque value, with counts of 1 to 100, because the row's attribute blob is described by `MapSerialize`.
- ItemRows.SaveItems: the attribute blob and subtype of a row are one opaque kind with a count, for the same reason.
- ItemRows.LoadItems: the same, and ids for which no item is created are excluded.
- ItemRows.LoadPlayerItems: one rule for roots, numbers under 100, stands for the slots, the depots and the inbox, because the three loops differ only in where a root is put.
- MapSerialize.UnserializeAttr: custom attributes (tag 34) are treated as unreadable.
- MapSerialize.LoadItem: custom attributes (tag 34) are treated as unreadable, an item's attributes are opaque bytes, ids for which no item is created are excluded, and the branch for stationary items already on a tile is not modelled.
- ConditionStream.LoadAfterSaveAll: outfits are opaque values, and a stream with more skill or stat fields than the arrays have places is not modelled, because the code then writes outside the array.
- ConditionStream.LoadsUnchangedIff: the moment at which a condition ends is not compared, because a condition that has ticks left sets it anew when it starts; nor are the counters of an attributes condition, which only its reader uses.
- ConditionStream.AttributesProp: a field for which the array has no place left fails, where the code writes outside the array.
- ConditionLedger.Creature.StartCondition: rolled speeds, computed percentages, whether the first damage goes through, and a damage list drawn up at random are given values.
- ConditionLedger.Creature.ExecuteConditions: hooks that edit the conditions during a round are not modelled.
- ConditionLedger.Creature.ExecuteOne: the health, mana and soul that are gained and the damage that is dealt are not part of the ledger.
- ConditionLedger.RunKeepsLedger: skill, statistic and speed differences are given, because percentages and the speed formula are floating-point; the creature's drunkenness and light, and damage hooks that call back into the conditions, are not modelled.
- ConditionLedger.Creature.RemoveCondition: whether a step is under way is a parameter.
- Trade.Game.PlayerRequestTrade: the checks of reach, house, size and pickup come before the protocol and are not modelled.
- Trade.Game.PlayerAcceptTrade: moving the two items is not modelled, because the protocol forgets the trade whatever comes of it; a transfer with one item is stated up to its start and end.
- CombatArea.CreateArea: a table that does not fill its rows is not modelled, because the code then writes outside its cells.
- CombatArea.GetList: gives positions; that a missing tile is made on the way, and the floor number, are not modelled.
- Market.Exchange.PlayerCreateMarketOffer: the checks for premium accounts and the number of open offers are one flag, and the fee is computed from a given value, because the source computes it in floating point.
- Market.Exchange.PlayerCancelMarketOffer: counts units and coins per player and keeps no history rows.
- Market.Exchange.PlayerAcceptMarketOffer: the same.
- Market.Exchange.ProcessExpiredOffers: the same.
- Market.Exchange.Deliver: counts units; `MarketHeap.Deliver` is the same loop on the item heap.
- MarketStock.HandOverWares: finds and removes wares on the item heap, and `MarketHeap` delivers and pays there, while `Market` counts units and coins per player; a run is stated on the counts only. Change that `removeMoney` leaves on the ground counts as the payer's in `MarketHeap.Debit` and as cash in `Market`.

Not modelled:

- Lua callbacks, events and creature scripts: taken to allow everything and touch nothing.
- Client messages, spectators, magic effects and text.
- MySQL queries: tables are sequences of rows, and each update is atomic. Offers are found by their place in the table instead of by timestamp and counter, and history rows are not kept.
- Tiles and players as cylinders, and player inventories: a tile is the list of what was dropped on it.
- Reference counts, deletion and object identity after deletion.
- Individual item attributes and their setters.
- Random numbers and floating point: `generateDamageList`, percentage stats and the speed formula are given values.
- `MatrixArea::flip`, `mirror`, `transpose`, `getArea`, and the circle and extended variants of `setupArea`: easy members beside the rotations and the cone.
- Networking, scheduling of tasks, accounts, chat, groups and the map itself.
