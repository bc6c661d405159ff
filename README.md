# RankIt tier board — a Dafny model

RankIt is a drag-and-drop tier-list editor. Its state is an ordered list of
tiers (rows such as S, A, B, C, D, each with a caption, three style classes
and an `order`) and a list of items (an image URL and an optional `tierId`;
an item with no tier sits in the unassigned pool). This project models:

- the zustand store (`src/store/useTierStore.ts`): the data types, the five
  default tiers and all eight store operations. Each operation is a pure
  function on sequences (`TiersAfterInsert`, `ItemsAfterMove`, …). The class
  `Store.TierStore` holds the two fields and has one method per operation,
  which replaces the fields with the function's result, as `set` does;
- the drop resolver and the drag lifecycle of the home page
  (`src/app/page.tsx`). `HomePage.ResolveDrop` turns a drag end into at most
  one store call (`Delete`, `Move` or `NoOp`). `HomePage.Home` holds the
  `activeId` state and its three handlers. The pool projection is `HomePage.Pool`;
- a tier row's handlers (`src/components/TierRow.tsx`): label commit with the
  JavaScript `trim` rule, insert above or below, remove, and the row's drop target;
- the board's projection of items into rows (`src/components/TierBoard.tsx`).

The central invariants are these:

- `Store.Dense`: every tier's `order` equals its index. Every operation keeps
  it except `updateTier` with an `order` in the patch.
- `Store.RefsValid`: no item names a missing tier. `removeTier` keeps it, and
  so does every drop onto a target the page renders.
- Each item is shown in exactly one place, either the pool or one row
  (`HomePage.ShownExactlyOnce`), provided tier ids are distinct and the item's
  tier exists. `removeTier` keeps tier ids distinct
  (`Store.RemoveKeepsTierIdsDistinct`); `addTier` keeps them distinct only
  when its generated id is fresh (`Store.InsertKeepsTierIdsDistinct`), and two
  rows with the same id would both show that tier's items.

Naming: the source's tier field `label` is called `caption` here, because
`label` is a reserved word in Dafny. A JavaScript `null` is `None`. Generated
ids (`item-<time>-<random>`, `tier-<time>`) are passed in as parameters
(`newId`, `newTierId`).

## Model

| member | source | states |
|---|---|---|
| Store.InitialTiersShape | src/store/useTierStore.ts:32-73 | The default tiers have ids S, A, B, C, D in that order, orders 0..4, distinct ids and captions equal to their ids. |
| Store.Renumber | src/store/useTierStore.ts:127-130 | Renormalising keeps the length and every field except `order`, and leaves the sequence dense (order = index). |
| Store.RenumberDense | src/store/useTierStore.ts:127-130 | Renormalising a sequence that is already dense changes nothing. |
| Store.RenumberKeepsIds | src/store/useTierStore.ts:140-143 | Renormalising leaves the id sequence unchanged. |
| Store.SpliceStart | src/store/useTierStore.ts:124 | The splice position is within 0..length. An in-range index is used as is, an index above the length appends, a negative index counts back from the end, and a negative index beyond the length clamps to 0. |
| Store.TiersAfterInsert | src/store/useTierStore.ts:114-133 | `addTier` adds exactly one tier at the clamped index, with the new id and the given props. Tiers before it are unchanged and tiers after it shift by one (all but `order`), and the result is dense. |
| Store.InsertedIds | src/store/useTierStore.ts:114-133 | After `addTier` the id sequence is the old one with the new id spliced in at the clamped index. |
| Store.InsertKeepsTierIdsDistinct | src/store/useTierStore.ts:114-133 | With a fresh id, `addTier` keeps tier ids distinct. |
| Store.InsertKeepsRefsValid | src/store/useTierStore.ts:114-133 | `addTier` never invalidates an item's tier reference. |
| Store.TiersAfterRemove | src/store/useTierStore.ts:135-143 | After `removeTier(t)` the result is dense and no longer than before. Its ids are exactly the old ids other than `t`. |
| Store.KeptTierIds | src/store/useTierStore.ts:137 | Filtering out `t` leaves exactly the old ids other than `t`. |
| Store.StripAllFilter | src/store/useTierStore.ts:137-143 | Filtering by id commutes with forgetting `order`. |
| Store.RemoveTierKeepsOthersInOrder | src/store/useTierStore.ts:135-143 | The surviving tiers are exactly the old tiers whose id is not `t`, in their old relative order, unchanged apart from `order`. |
| Store.RemoveAbsentTier | src/store/useTierStore.ts:135-143 | Removing an absent id only renormalises, and a dense sequence comes back unchanged. |
| Store.InsertedFilteredOut | src/store/useTierStore.ts:137 | Filtering out a freshly inserted id removes exactly the inserted tier. |
| Store.RenumberRestores | src/store/useTierStore.ts:140-143 | Renormalising tiers that agree with a dense sequence on every field but `order` gives back that sequence. |
| Store.RemoveInsertedTier | src/store/useTierStore.ts:114-143 | Round trip: removing a tier just inserted under a fresh id gives back the original dense sequence, for any index. |
| Store.TiersAfterUpdate | src/store/useTierStore.ts:100-105 | `updateTier` spreads the patch over exactly the tiers with that id. Other tiers and the length are unchanged. |
| Store.ApplyPatch | src/store/useTierStore.ts:103 | `{ ...tier, ...updates }`: each field present in the patch overrides the tier's, each absent field keeps the tier's, and an empty patch gives back the tier. |
| Store.PatchIdempotent | src/store/useTierStore.ts:103 | Spreading the same patch twice equals spreading it once. |
| Store.UpdateWithoutRankKeepsInvariant | src/store/useTierStore.ts:100-105 | A patch without `order` keeps the sequence dense, and a patch without `id` keeps the ids. |
| Store.UpdateWithRankBreaksInvariant | src/store/useTierStore.ts:100-105 | A patch with `order` can break the dense-order invariant, e.g. `order: 7` on tier S of the default board. |
| Store.TiersAfterLabel | src/store/useTierStore.ts:107-112 | `updateTierLabel` sets the caption of exactly the tiers with that id. Length, ids, orders and classes are unchanged, and density is kept. |
| Store.LabelIsLabelPatch | src/store/useTierStore.ts:100-112 | `updateTierLabel` equals `updateTier` with a caption-only patch. |
| Store.LabelAbsentTier | src/store/useTierStore.ts:107-112 | Relabelling an absent tier is a no-op. |
| Store.ItemsAfterMove | src/store/useTierStore.ts:81-86 | `moveItem` sets `tierId := target` on exactly the items with that id. Every other field and item, the length and the ids are unchanged. |
| Store.MoveAbsentItem | src/store/useTierStore.ts:81-86 | Moving an absent item is a no-op. |
| Store.MoveKeepsRefsValid | src/store/useTierStore.ts:81-86 | Moving to the pool or to an existing tier keeps every reference valid (the store itself does not check the target). |
| Store.ItemsAfterAdd | src/store/useTierStore.ts:88-98 | `addItem` appends exactly one pool item with the new id and the URL, and the old items come first, unchanged. |
| Store.AddKeepsItemIdsDistinct | src/store/useTierStore.ts:88-98 | With a fresh id, `addItem` keeps item ids distinct. |
| Store.ItemsAfterDelete | src/store/useTierStore.ts:153-156 | `deleteItem` keeps exactly the items with another id, as a subsequence (store order kept). |
| Store.DeleteCounts | src/store/useTierStore.ts:153-156 | `deleteItem` keeps every copy of each item with another id and no copy of an item with that id. |
| Store.DeleteAbsentItem | src/store/useTierStore.ts:153-156 | Deleting an absent item is a no-op. |
| Store.DeleteAddedItem | src/store/useTierStore.ts:88-156 | Round trip: deleting an item just added under a fresh id restores the item list. |
| Store.ItemsAfterRemoveTier | src/store/useTierStore.ts:145-150 | `removeTier(t)` sends exactly the items of tier `t` to the pool. Length, ids, URLs and order are unchanged, and no item references `t` afterwards. |
| Store.FilterKeepsTierIdsDistinct | src/store/useTierStore.ts:137 | Filtering out one id keeps tier ids distinct. |
| Store.RemoveKeepsTierIdsDistinct | src/store/useTierStore.ts:135-143 | `removeTier` keeps tier ids distinct. |
| Store.RemoveTierKeepsRefsValid | src/store/useTierStore.ts:135-150 | `removeTier` keeps every item reference valid. |
| Store.TierStore.constructor | src/store/useTierStore.ts:78-79 | A fresh store holds the default tiers and no items, and is dense. |
| Store.TierStore.MoveItem | src/store/useTierStore.ts:81-86 | The items become `ItemsAfterMove` of the old items, and the tiers are untouched. |
| Store.TierStore.AddItem | src/store/useTierStore.ts:88-98 | The items become `ItemsAfterAdd` of the old items, and the tiers are untouched. |
| Store.TierStore.UpdateTier | src/store/useTierStore.ts:100-105 | The tiers become `TiersAfterUpdate` of the old tiers. Items are untouched, and density is kept when the patch has no `order`. |
| Store.TierStore.UpdateTierLabel | src/store/useTierStore.ts:107-112 | The tiers become `TiersAfterLabel` of the old tiers. Items are untouched, and density is kept. |
| Store.TierStore.AddTier | src/store/useTierStore.ts:114-133 | The splice-then-renormalise code yields `TiersAfterInsert`. Items are untouched, and the result is dense. |
| Store.TierStore.RemoveTier | src/store/useTierStore.ts:135-151 | Tiers and items change together as `TiersAfterRemove` and `ItemsAfterRemoveTier` say. The result is dense and valid references stay valid. |
| Store.TierStore.DeleteItem | src/store/useTierStore.ts:153-156 | The items become `ItemsAfterDelete` of the old items, and the tiers are untouched. |
| Store.TierStore.ClearAll | src/store/useTierStore.ts:158-162 | Whatever the prior state, the store holds the default tiers and no items, dense and with valid references. |
| TierBoardView.ItemsOf | src/components/TierBoard.tsx:13 | A row's items are exactly the items whose `tierId` is that tier's id, in store order. |
| TierBoardView.ItemsOfCounts | src/components/TierBoard.tsx:13 | A row holds every copy of each item assigned to its tier, and no copy of any other item. |
| TierBoardView.Rows | src/components/TierBoard.tsx:11-14 | There is one row per tier, in tier order, each holding exactly that tier's items as a subsequence of the store. |
| TierBoardView.RowsCounts | src/components/TierBoard.tsx:11-14 | Row `k` holds every copy of each item assigned to tier `k`, and no copy of any other item. |
| TierRowView.TrimStart | src/components/TierRow.tsx:26 | The result is the longest suffix that does not start with JavaScript white space. |
| TierRowView.TrimEnd | src/components/TierRow.tsx:26 | The result is the longest prefix that does not end in JavaScript white space. |
| TierRowView.Trim | src/components/TierRow.tsx:26 | `trim()` is empty exactly when the string is all white space or line terminators. |
| TierRowView.InsertAbovePlacesBefore | src/components/TierRow.tsx:39-46 | On a dense board, insert-above puts a "NEW" zinc tier at this row's index, and this row moves down one with its order raised by one. |
| TierRowView.InsertBelowPlacesAfter | src/components/TierRow.tsx:48-55 | On a dense board, insert-below puts a "NEW" zinc tier right after this row, which stays unchanged. |
| TierRowView.InsertAboveLandsAtRow | src/components/TierRow.tsx:39-46 | Insert-above on a dense board places the NEW tier at every index that shows this row, and moves the row down one. |
| TierRowView.InsertBelowLandsAfterRow | src/components/TierRow.tsx:48-55 | Insert-below on a dense board places the NEW tier right after every index that shows this row, and leaves the row unchanged. |
| TierRowView.InsertAboveTwice | src/components/TierRow.tsx:39-46 | Inserting above row `k` twice, reading the row's order again in between, puts both new tiers directly above the row, the second below the first. The row ends at `k + 1` with order `k + 1` after the first insert. |
| TierRowView.InsertAboveTwiceThroughRow | src/components/TierRow.tsx:13-46 | The same two clicks through a row object that is re-rendered between them leave the ids as the old ones with both new ids directly above the row, and the items untouched. |
| TierRowView.Droppable | src/components/TierRow.tsx:57-63 | A row's drop target carries the tier's own id and the type "Tier", so it is not the trash bin's or the pool's descriptor. A row whose id were "trash-zone" would still resolve to a delete, since the resolver tests the id first. |
| TierRowView.TierRow.constructor | src/components/TierRow.tsx:18 | The edit buffer starts as the tier's caption. |
| TierRowView.TierRow.Rerender | src/components/TierRow.tsx:13-23 | A render with new props makes the handlers read the new tier. The label-sync effect resets the buffer to the new caption exactly when the caption changed, and keeps the buffer otherwise. |
| TierRowView.TierRow.HandleLabelChange | src/components/TierRow.tsx:80 | Typing replaces the edit buffer and nothing else. |
| TierRowView.TierRow.HandleLabelBlur | src/components/TierRow.tsx:25-30 | A non-blank buffer is stored untrimmed through `updateTierLabel`. A blank one leaves the store alone and reverts the buffer to the caption. Items never change. |
| TierRowView.TierRow.HandleInsertAbove | src/components/TierRow.tsx:39-46 | The store's tiers become `TiersAfterInsert` at `tier.order` with the NEW props, and items are untouched. On a dense board the NEW tier takes the row's index, and the row moves down one with its order raised by one. |
| TierRowView.TierRow.HandleInsertBelow | src/components/TierRow.tsx:48-55 | The store's tiers become `TiersAfterInsert` at `tier.order + 1` with the NEW props, and items are untouched. On a dense board the NEW tier lands right after the row, which stays unchanged. |
| TierRowView.TierRow.HandleRemove | src/components/TierRow.tsx:120 | The store performs `removeTier(tier.id)` on tiers and items. |
| HomePage.Pool | src/app/page.tsx:67-70 | The pool is exactly the items with no tier, in store order. |
| HomePage.PoolCounts | src/app/page.tsx:67-70 | The pool holds every copy of each unassigned item, and no copy of an assigned one. |
| HomePage.FindIndex | src/app/page.tsx:111 | `find` stops at the first item with the id, or at the end when there is none. |
| HomePage.FindItem | src/app/page.tsx:111 | `find` returns nothing exactly when no item has the id. Otherwise it returns the first stored item with that id: no earlier item carries the id. |
| HomePage.ResolveDrop | src/app/page.tsx:86-118 | A drop deletes exactly when the target is the trash (by id or type), and is a no-op exactly when a non-trash target has the dragged id. Any mutation is of the dragged item. A tier it moves to is the target's id or the tier of a stored item. |
| HomePage.Apply | src/app/page.tsx:103-116 | Applying a resolved drop: `NoOp` changes nothing. `Move` keeps the ids and sets the target on exactly the items with the dragged id. `Delete` removes exactly the items with the dragged id. |
| HomePage.DropOutsideReturnsToPool | src/app/page.tsx:90-94 | No target: `moveItem(active, null)`, so the dragged item ends up in the pool. |
| HomePage.TrashDeletes | src/app/page.tsx:102-104 | A trash target (id "trash-zone" or type "TrashZone") deletes the dragged item and nothing else, even when its id equals the dragged id. |
| HomePage.TierTargetMoves | src/app/page.tsx:105-116 | A "Tier" target moves the item to the target's id. |
| HomePage.PoolOrUnknownTargetReturnsToPool | src/app/page.tsx:100-116 | An "ItemPool" target, or one of unrecognised type, moves the item to the pool. |
| HomePage.DropOnItemJoinsItsContainer | src/app/page.tsx:109-116 | Dropping onto a stored item moves the dragged item into that item's current tier (or the pool). |
| HomePage.DropOnMissingItemReturnsToPool | src/app/page.tsx:109-113 | Dropping onto an item id the store lacks moves the item to the pool. |
| HomePage.SelfDropIsNoOp | src/app/page.tsx:115-117 | A non-trash target with the dragged id causes no mutation. |
| HomePage.TierRowDropMovesIntoThatTier | src/components/TierRow.tsx:57-63 | A row's own drop target moves the dragged item into exactly that tier. |
| HomePage.RefsValidOfMembers | src/store/useTierStore.ts:153-156 | Keeping only items that were already present cannot create a dangling reference. |
| HomePage.DropKeepsRefsValid | src/app/page.tsx:86-118 | Every drop onto a rendered target (trash, pool, row, item, or none) keeps every item reference valid. |
| HomePage.RemoveTierFillsPool | src/store/useTierStore.ts:145-150 | After `removeTier(t)` the pool grows by exactly the number of items tier `t` held. |
| HomePage.PoolGrowth | src/store/useTierStore.ts:145-150 | The same count stated on the two filters, by induction over the items. |
| HomePage.RemoveTierEmptiesRow | src/store/useTierStore.ts:145-150 | After `removeTier(t)` no item would show in a row for `t`. |
| HomePage.ShownExactlyOnce | src/components/TierBoard.tsx:13 | With distinct tier ids, an item with no tier or an existing tier appears in exactly one place: the pool, or the row of its tier. |
| HomePage.ShownInPoolOnly | src/app/page.tsx:67-70 | An unassigned item is shown in the pool and in no row. |
| HomePage.ShownInRowOnly | src/components/TierBoard.tsx:13 | With distinct tier ids, an item of the tier at `k` is shown in row `k` only, and not in the pool. |
| HomePage.DefaultBoardWalkthrough | src/store/useTierStore.ts:78-151 | From a fresh store: add an item, move it to S, remove S. The item is back alone in the pool, and the board is A, B, C, D, dense. |
| HomePage.DefaultBoardItems | src/store/useTierStore.ts:81-150 | The item list that walk-through produces is the lone pool item. |
| HomePage.DefaultBoardWithoutS | src/store/useTierStore.ts:135-143 | Removing S from the default board leaves the ids A, B, C, D. |
| HomePage.Home.constructor | src/app/page.tsx:34 | No item is being dragged at first. |
| HomePage.Home.ActiveItem | src/app/page.tsx:62-65 | The overlay item is the first stored item with the dragged id. It is present whenever the store holds that id, and absent when nothing is dragged. |
| HomePage.Home.HandleDragStart | src/app/page.tsx:73-75 | Drag start only records the dragged id. |
| HomePage.Home.HandleDragOver | src/app/page.tsx:77-84 | Drag over changes neither the page state nor the store. |
| HomePage.Home.HandleDragEnd | src/app/page.tsx:86-118 | The dragged id is cleared on every path. The tiers are untouched, and the items become the result of applying `ResolveDrop`'s mutation to the old items. |
| HomePage.TrashIdWinsOverKind | src/app/page.tsx:102-104 | The trash test reads the id first: an item or a row whose id is "trash-zone" is taken for the trash, and a drop onto it deletes. |
| HomePage.TrashZoneDeletes | src/components/TrashZone.tsx:9-14 | The trash bin's target (`trash-zone`, type "TrashZone") resolves to deleting the dragged item. |
| HomePage.ItemPoolTakesBack | src/components/ItemPool.tsx:18-23 | The pool's target (`item-pool`, type "ItemPool") resolves to moving the dragged item to the pool. |
| Dnd.ItemDroppable | src/components/SortableItem.tsx:18-24 | Every rendered item is a drop target with the item's id and the type "Item", so it is not the trash bin's or the pool's descriptor. An item whose id were "trash-zone" would still resolve to a delete, since the resolver tests the id first. |
| Seqs.Filter | src/store/useTierStore.ts:155 | `Array.prototype.filter`: the result is no longer than the input, and every element kept satisfies the predicate. |
| Seqs.FilterMembers | src/store/useTierStore.ts:155 | An element is kept exactly when it occurs in the input and satisfies the predicate. |
| Seqs.FilterCounts | src/store/useTierStore.ts:155 | Every copy of a kept element survives, and no copy of a rejected one. |
| Seqs.FilterIsSubsequence | src/store/useTierStore.ts:155 | Filtering keeps the input order. |

## Left out

- Persistence (the zustand `persist` middleware, the localStorage key at src/store/useTierStore.ts:164-166) and hydration (src/hooks/useStoreHydration.ts): I/O and a React mount flag. A fresh store starts from the defaults.
- Id generation with `Date.now()` and `Math.random()` (src/store/useTierStore.ts:93, 116): clock and randomness. Ids are parameters. Two `addTier` calls within one millisecond would reuse a `tier-<time>` id, so id distinctness is proved only under a freshness precondition.
- The demo seeding effect (src/app/page.tsx:38-48): a development-only side effect on mount.
- dnd-kit sensors and `pointerWithin` collision detection: library internals. A drag end delivers one resolved target, or none.
- Header export, the ItemPool upload path and the game-search proxy: foreign calls, async I/O and the network. Only the pool's and trash's drop-target constants are used.
- All rendering: JSX, styles, animation and the skeleton shown before hydration.
- Re-rendering is not automatic: a `TierRowView.TierRow` object holds the props of its latest `Rerender`. React re-renders every row after each store change, and the model leaves that call to the caller, as `InsertAboveTwiceThroughRow` does. A row's `tier` is not tied to the store by an invariant.
- `handleLabelKeyDown` (src/components/TierRow.tsx:33-37) only blurs the input on Enter, which is `HandleLabelBlur`.
- The input's `maxLength={10}` (src/components/TierRow.tsx:84): a browser-side limit. Captions of any length are accepted here.
- Store.TiersAfterUpdate: a `Partial<Tier>` is a patch of optional fields. A field present with the value `undefined`, which a JavaScript spread copies, is not modelled.
- Store.SpliceStart: only integer indexes are modelled, not JavaScript's truncation of fractional or non-numeric ones. The callers pass only `tier.order` and `tier.order + 1`.
- Store.TierStore.AddTier: the splice is done on a sequence copy, as the source does on `[...state.tiers]`, not on a mutable array.
- Store.ItemsAfterDelete: its own contract states membership and store order. How many copies survive is stated separately by Store.DeleteCounts.
- HomePage.Pool: as for ItemsAfterDelete, multiplicity is stated separately by HomePage.PoolCounts.
- TierBoardView.ItemsOf: as for ItemsAfterDelete, multiplicity is stated separately by TierBoardView.ItemsOfCounts.
- TierBoardView.Rows: as for ItemsAfterDelete, multiplicity is stated separately by TierBoardView.RowsCounts.
- HomePage.ResolveDrop: `over.id` and `data.current?.type` are taken as strings. The type is `None` when `data.current` is absent.
