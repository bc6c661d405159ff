/**
 * The home page's drag handling (src/app/page.tsx): the three-phase drag
 * lifecycle, the resolution of a drop into at most one store mutation, and the
 * pool projection shown beside the tier board.
 */
module HomePage {
  import opened Wrappers
  import opened Seqs
  import opened Store
  import opened Dnd
  import opened TierBoardView
  import TierRowView

  /** `unassignedItems`: the items whose `tierId` is null, in store order. */
  function Pool(items: seq<Item>): (r: seq<Item>)
    ensures forall x :: x in r <==> x in items && x.tierId == None
    ensures IsSubsequence(r, items)
  {
    FilterMembers(items, (item: Item) => item.tierId.None?);
    FilterIsSubsequence(items, (item: Item) => item.tierId.None?);
    Filter(items, (item: Item) => item.tierId.None?)
  }

  /** The pool holds every copy of every unassigned item. */
  lemma PoolCounts(items: seq<Item>)
    ensures forall x :: multiset(Pool(items))[x] == if x.tierId == None then multiset(items)[x] else 0
  {
    FilterCounts(items, (item: Item) => item.tierId.None?);
  }

  /** The position `items.find(i => i.id === id)` stops at: the first match, or `|items|` when there is none. */
  function FindIndex(items: seq<Item>, id: string): (k: nat)
    ensures k <= |items|
    ensures forall j :: 0 <= j < k ==> items[j].id != id
    ensures k < |items| ==> items[k].id == id
  {
    if items == [] then 0
    else if items[0].id == id then 0
    else 1 + FindIndex(items[1..], id)
  }

  /** `items.find(i => i.id === id)`: the first item with that id, if any. */
  function FindItem(items: seq<Item>, id: string): (r: Option<Item>)
    ensures r.None? <==> id !in ItemIds(items)
    ensures r.Some? ==> r.value.id == id && r.value in items
    ensures r.Some? ==> exists k :: 0 <= k < |items| && items[k] == r.value && forall j :: 0 <= j < k ==> items[j].id != id
  {
    var k := FindIndex(items, id);
    assert k == |items| ==> id !in ItemIds(items) by {
      if k == |items| {
        forall j | 0 <= j < |items| ensures ItemIds(items)[j] != id {
        }
      }
    }
    assert k < |items| ==> ItemIds(items)[k] == id;
    if k < |items| then Some(items[k]) else None
  }

  /** The store call a drop ends in, if any. */
  datatype Mutation = Delete(itemId: string) | Move(itemId: string, target: Option<string>) | NoOp

  predicate IsTrash(over: Dnd.Droppable) {
    over.id == TrashZoneId || over.kind == Some(TrashZoneKind)
  }

  /**
   * The decision `handleDragEnd` makes: no target returns the item to the pool;
   * the trash deletes it; otherwise the target tier is the tier itself, the
   * pool, the tier of the item dropped onto, or the pool for any other target,
   * and the move is skipped when the target is the dragged item itself.
   */
  function ResolveDrop(active: string, over: Option<Dnd.Droppable>, items: seq<Item>): (m: Mutation)
    ensures !m.NoOp? ==> m.itemId == active
    ensures m.Delete? <==> over.Some? && IsTrash(over.value)
    ensures m.NoOp? <==> over.Some? && !IsTrash(over.value) && over.value.id == active
    ensures m.Move? && m.target.Some? ==>
      over.Some? && (m.target.value == over.value.id || exists x :: x in items && x.tierId == m.target)
  {
    if over.None? then Move(active, None)
    else
      var o := over.value;
      if IsTrash(o) then Delete(active)
      else
        var targetTierId :=
          if o.kind == Some(TierKind) then Some(o.id)
          else if o.kind == Some(ItemPoolKind) then None
          else if o.kind == Some(ItemKind) then
            (match FindItem(items, o.id) case Some(overItem) => overItem.tierId case None => None)
          else None;
        if active != o.id then Move(active, targetTierId) else NoOp
  }

  /** The effect of a resolved drop on the item list (no drop mutation touches the tiers). */
  function Apply(m: Mutation, items: seq<Item>): (r: seq<Item>)
    ensures m.NoOp? ==> r == items
    ensures m.Move? ==> ItemIds(r) == ItemIds(items)
    ensures m.Move? ==> forall i :: 0 <= i < |r| ==> r[i].tierId == if items[i].id == m.itemId then m.target else items[i].tierId
    ensures m.Delete? ==> m.itemId !in ItemIds(r) && forall x :: x in r <==> x in items && x.id != m.itemId
  {
    match m
    case Delete(id) =>
      var r := ItemsAfterDelete(items, id);
      assert id !in ItemIds(r) by {
        forall i | 0 <= i < |r| ensures ItemIds(r)[i] != id {
          assert r[i] in r;
        }
      }
      r
    case Move(id, target) => ItemsAfterMove(items, id, target)
    case NoOp => items
  }

  /** Releasing an item outside every drop target is `moveItem(id, null)`. */
  lemma DropOutsideReturnsToPool(active: string, items: seq<Item>)
    ensures ResolveDrop(active, None, items) == Move(active, None)
    ensures forall i :: 0 <= i < |items| && items[i].id == active ==>
      Apply(ResolveDrop(active, None, items), items)[i].tierId == None
  {
  }

  /** The trash wins over every other reading of the target, even a target with the dragged item's own id. */
  lemma TrashDeletes(active: string, over: Dnd.Droppable, items: seq<Item>)
    requires IsTrash(over)
    ensures ResolveDrop(active, Some(over), items) == Delete(active)
    ensures forall x :: x in Apply(ResolveDrop(active, Some(over), items), items) <==> x in items && x.id != active
  {
  }

  /** The trash bin the page renders deletes whatever is dropped on it. */
  lemma TrashZoneDeletes(active: string, items: seq<Item>)
    ensures ResolveDrop(active, Some(TrashZone), items) == Delete(active)
  {
  }

  /**
   * The trash is recognised by id before type: an item or a row whose id is
   * "trash-zone" is read as the trash, and dropping onto it deletes.
   */
  lemma TrashIdWinsOverKind(active: string, target: Item, tier: Tier, items: seq<Item>)
    requires target.id == TrashZoneId && tier.id == TrashZoneId
    ensures ResolveDrop(active, Some(Dnd.ItemDroppable(target)), items) == Delete(active)
    ensures ResolveDrop(active, Some(TierRowView.Droppable(tier)), items) == Delete(active)
  {
  }

  /** The pool the page renders takes back whatever item is dropped on it. */
  lemma ItemPoolTakesBack(active: string, items: seq<Item>)
    requires active != ItemPoolId
    ensures ResolveDrop(active, Some(ItemPool), items) == Move(active, None)
  {
  }

  /** A "Tier" target moves the item to the tier with the target's id, unchecked. */
  lemma TierTargetMoves(active: string, over: Dnd.Droppable, items: seq<Item>)
    requires over.kind == Some(TierKind) && over.id != TrashZoneId && over.id != active
    ensures ResolveDrop(active, Some(over), items) == Move(active, Some(over.id))
  {
  }

  /** The pool, and any target whose type is not recognised, return the item to the pool. */
  lemma PoolOrUnknownTargetReturnsToPool(active: string, over: Dnd.Droppable, items: seq<Item>)
    requires !IsTrash(over) && over.id != active
    requires over.kind != Some(TierKind) && over.kind != Some(ItemKind)
    ensures ResolveDrop(active, Some(over), items) == Move(active, None)
  {
  }

  /**
   * Dropping onto another item joins whatever container the first item with
   * that id is in: afterwards every item with the active id has that tierId.
   */
  lemma {:induction false} DropOnItemJoinsItsContainer(active: string, items: seq<Item>, j: nat)
    requires j < |items| && items[j].id != active && items[j].id != TrashZoneId
    requires forall i :: 0 <= i < j ==> items[i].id != items[j].id
    ensures ResolveDrop(active, Some(ItemDroppable(items[j])), items) == Move(active, items[j].tierId)
    ensures var r := Apply(ResolveDrop(active, Some(ItemDroppable(items[j])), items), items);
      forall i :: 0 <= i < |r| && r[i].id == active ==> r[i].tierId == items[j].tierId
  {
  }

  /** Dropping onto an item id the store does not hold sends the dragged item to the pool. */
  lemma DropOnMissingItemReturnsToPool(active: string, over: Dnd.Droppable, items: seq<Item>)
    requires over.kind == Some(ItemKind) && over.id != TrashZoneId && over.id != active
    requires over.id !in ItemIds(items)
    ensures ResolveDrop(active, Some(over), items) == Move(active, None)
  {
  }

  /** Dropping an item onto itself (outside the trash) changes nothing. */
  lemma SelfDropIsNoOp(active: string, over: Dnd.Droppable, items: seq<Item>)
    requires over.id == active && !IsTrash(over)
    ensures ResolveDrop(active, Some(over), items) == NoOp
    ensures Apply(ResolveDrop(active, Some(over), items), items) == items
  {
  }

  /** A tier row's drop target moves the dragged item into exactly that tier. */
  lemma TierRowDropMovesIntoThatTier(active: string, tier: Tier, items: seq<Item>)
    requires tier.id != TrashZoneId && tier.id != active
    ensures ResolveDrop(active, Some(TierRowView.Droppable(tier)), items) == Move(active, Some(tier.id))
  {
  }

  /** The drop targets the page actually renders: the trash, the pool, a tier row, or an item. */
  predicate TargetOnBoard(over: Option<Dnd.Droppable>, tiers: seq<Tier>, items: seq<Item>) {
    || over.None?
    || over.value == TrashZone
    || over.value == ItemPool
    || (exists k :: 0 <= k < |tiers| && over.value == TierRowView.Droppable(tiers[k]))
    || (exists i :: 0 <= i < |items| && over.value == ItemDroppable(items[i]))
  }

  /** Keeping only items that were already there cannot create a dangling reference. */
  lemma {:induction false} RefsValidOfMembers(tiers: seq<Tier>, items: seq<Item>, r: seq<Item>)
    requires RefsValid(tiers, items)
    requires forall x :: x in r ==> x in items
    ensures RefsValid(tiers, r)
  {
    forall i | 0 <= i < |r| && r[i].tierId.Some? ensures r[i].tierId.value in TierIds(tiers) {
      assert r[i] in r;
      var j :| 0 <= j < |items| && items[j] == r[i];
    }
  }

  /**
   * A drop onto anything the page renders never leaves an item pointing at a
   * tier that does not exist.
   */
  lemma {:induction false} DropKeepsRefsValid(active: string, over: Option<Dnd.Droppable>, tiers: seq<Tier>, items: seq<Item>)
    requires RefsValid(tiers, items) && TargetOnBoard(over, tiers, items)
    ensures RefsValid(tiers, Apply(ResolveDrop(active, over, items), items))
  {
    var m := ResolveDrop(active, over, items);
    match m
    case Delete(id) =>
      RefsValidOfMembers(tiers, items, ItemsAfterDelete(items, id));
    case NoOp =>
    case Move(id, target) =>
      if target.Some? {
        var o := over.value;
        if o.kind == Some(TierKind) {
          var k :| 0 <= k < |tiers| && o == TierRowView.Droppable(tiers[k]);
          assert TierIds(tiers)[k] == o.id;
        } else {
          assert o.kind == Some(ItemKind);
          var overItem := FindItem(items, o.id);
          var j :| 0 <= j < |items| && items[j] == overItem.value;
        }
      }
      MoveKeepsRefsValid(tiers, items, id, target);
  }

  /** Removing a tier returns exactly its items to the pool: the pool grows by the tier's item count. */
  lemma RemoveTierFillsPool(items: seq<Item>, t: string)
    ensures |Pool(ItemsAfterRemoveTier(items, t))| == |Pool(items)| + |ItemsOf(items, t)|
  {
    PoolGrowth(items, t);
  }

  /** `RemoveTierFillsPool` stated on the filters themselves, by induction on the items. */
  lemma {:induction false} PoolGrowth(items: seq<Item>, t: string)
    ensures |Filter(ItemsAfterRemoveTier(items, t), (item: Item) => item.tierId.None?)|
      == |Filter(items, (item: Item) => item.tierId.None?)| + |Filter(items, (item: Item) => item.tierId == Some(t))|
  {
    if items != [] {
      var r := ItemsAfterRemoveTier(items, t);
      PoolGrowth(items[1..], t);
      assert ItemsAfterRemoveTier(items[1..], t) == r[1..];
      assert r == [r[0]] + r[1..];
      assert items == [items[0]] + items[1..];
      FilterLengthCons(r[0], r[1..], (item: Item) => item.tierId.None?);
      FilterLengthCons(items[0], items[1..], (item: Item) => item.tierId.None?);
      FilterLengthCons(items[0], items[1..], (item: Item) => item.tierId == Some(t));
    }
  }

  /** After `removeTier(t)` the row for `t`, were it rendered, would be empty. */
  lemma RemoveTierEmptiesRow(items: seq<Item>, t: string)
    ensures ItemsOf(ItemsAfterRemoveTier(items, t), t) == []
  {
  }

  /** Where an item can be shown: the pool, or the row at some index. */
  datatype Place = InPool | InRow(k: nat)

  /** Every place of the page that shows item `x`. */
  ghost function PlacesShowing(tiers: seq<Tier>, items: seq<Item>, x: Item): set<Place> {
    (if x in Pool(items) then {InPool} else {})
    + set k: nat | k < |tiers| && x in Rows(tiers, items)[k].items :: InRow(k)
  }

  /**
   * With distinct tier ids, an item in the pool or in an existing tier is shown
   * in exactly one place: the pool when its tierId is null, otherwise the row of its tier.
   */
  lemma ShownExactlyOnce(tiers: seq<Tier>, items: seq<Item>, x: Item)
    requires x in items && DistinctTierIds(tiers)
    requires x.tierId.Some? ==> x.tierId.value in TierIds(tiers)
    ensures |PlacesShowing(tiers, items, x)| == 1
    ensures x.tierId.None? ==> PlacesShowing(tiers, items, x) == {InPool}
    ensures x.tierId.Some? ==>
      (exists k :: 0 <= k < |tiers| && tiers[k].id == x.tierId.value && PlacesShowing(tiers, items, x) == {InRow(k)})
  {
    if x.tierId.None? {
      ShownInPoolOnly(tiers, items, x);
    } else {
      var k :| 0 <= k < |tiers| && TierIds(tiers)[k] == x.tierId.value;
      ShownInRowOnly(tiers, items, x, k);
    }
  }

  /** An unassigned item is shown in the pool and in no row. */
  lemma ShownInPoolOnly(tiers: seq<Tier>, items: seq<Item>, x: Item)
    requires x in items && x.tierId.None?
    ensures PlacesShowing(tiers, items, x) == {InPool}
  {
    var places := PlacesShowing(tiers, items, x);
    forall p | p in places ensures p == InPool {
    }
  }

  /** With distinct tier ids, an item of the tier at `k` is shown in row `k` only. */
  lemma ShownInRowOnly(tiers: seq<Tier>, items: seq<Item>, x: Item, k: nat)
    requires x in items && DistinctTierIds(tiers)
    requires k < |tiers| && x.tierId == Some(tiers[k].id)
    ensures PlacesShowing(tiers, items, x) == {InRow(k)}
  {
    var rows := Rows(tiers, items);
    var places := PlacesShowing(tiers, items, x);
    assert x in rows[k].items;
    forall p | p in places ensures p == InRow(k) {
      if p.InRow? {
        assert x in rows[p.k].items;
        assert TierIds(tiers)[p.k] == tiers[p.k].id && TierIds(tiers)[k] == tiers[k].id;
      }
    }
    assert InRow(k) in places;
  }

  /** The page's drag state: which item is being dragged, and the store it acts on. */
  class Home {
    const store: TierStore
    var activeId: Option<string>

    constructor (store: TierStore)
      ensures this.store == store && activeId == None
    {
      this.store := store;
      activeId := None;
    }

    /** `activeItem`, shown in the drag overlay: the item being dragged, if the store still holds it. */
    function ActiveItem(): (r: Option<Item>)
      reads this, store
      ensures r.Some? ==> activeId.Some? && r.value.id == activeId.value && r.value in store.items
      ensures activeId.Some? && activeId.value in ItemIds(store.items) ==> r.Some?
      ensures activeId.None? ==> r.None?
      ensures r.Some? ==>
        exists k :: 0 <= k < |store.items| && store.items[k] == r.value && forall j :: 0 <= j < k ==> store.items[j].id != activeId.value
    {
      if activeId.Some? then FindItem(store.items, activeId.value) else None
    }

    /** `handleDragStart`: only records the dragged id. */
    method HandleDragStart(activeItemId: string)
      modifies this
      ensures activeId == Some(activeItemId)
    {
      activeId := Some(activeItemId);
    }

    /** `handleDragOver`: items move only on drop, so nothing changes. */
    method HandleDragOver(over: Option<Dnd.Droppable>)
      ensures unchanged(this) && unchanged(store)
    {
      if over.None? {
        return;
      }
    }

    /**
     * `handleDragEnd`: clears the dragged id on every path, then issues the one
     * store call `ResolveDrop` chooses, leaving the tiers alone.
     */
    method HandleDragEnd(activeItemId: string, over: Option<Dnd.Droppable>)
      modifies this, store
      ensures activeId == None
      ensures store.tiers == old(store.tiers)
      ensures store.items == Apply(ResolveDrop(activeItemId, over, old(store.items)), old(store.items))
    {
      activeId := None;

      if over.None? {
        store.MoveItem(activeItemId, None);
        return;
      }

      var o := over.value;
      var targetTierId: Option<string> := None;

      if o.id == TrashZoneId || o.kind == Some(TrashZoneKind) {
        store.DeleteItem(activeItemId);
        return;
      } else if o.kind == Some(TierKind) {
        targetTierId := Some(o.id);
      } else if o.kind == Some(ItemPoolKind) {
        targetTierId := None;
      } else if o.kind == Some(ItemKind) {
        var overItem := FindItem(store.items, o.id);
        targetTierId := if overItem.Some? then overItem.value.tierId else None;
      }

      if activeItemId != o.id {
        store.MoveItem(activeItemId, targetTierId);
      }
    }
  }

  /**
   * The walk-through from the default board: add an item, drop it on row S,
   * remove S. The item is back in the pool and the board ranks A..D as 0..3.
   */
  method DefaultBoardWalkthrough() returns (tiers: seq<Tier>, items: seq<Item>)
    ensures items == [Item("item-1", "a.png", None)] && Pool(items) == items
    ensures TierIds(tiers) == ["A", "B", "C", "D"] && Dense(tiers)
  {
    var store := new TierStore();
    store.AddItem("a.png", "item-1");
    store.MoveItem("item-1", Some("S"));
    store.RemoveTier("S");
    tiers, items := store.tiers, store.items;
    DefaultBoardItems();
    DefaultBoardWithoutS();
  }

  /** The item added, placed in S and sent back to the pool by removing S is a lone pool item again. */
  lemma DefaultBoardItems()
    ensures var items := ItemsAfterRemoveTier(ItemsAfterMove(ItemsAfterAdd([], "a.png", "item-1"), "item-1", Some("S")), "S");
      items == [Item("item-1", "a.png", None)] && Pool(items) == items
  {
    var items := ItemsAfterRemoveTier(ItemsAfterMove(ItemsAfterAdd([], "a.png", "item-1"), "item-1", Some("S")), "S");
    assert items == [Item("item-1", "a.png", None)];
    FilterOne(items[0], (item: Item) => item.tierId.None?);
  }

  /** Removing S from the default board leaves A..D in order. */
  lemma DefaultBoardWithoutS()
    ensures TierIds(TiersAfterRemove(InitialTiers, "S")) == ["A", "B", "C", "D"]
  {
    var p := (tier: Tier) => tier.id != "S";
    var rest := InitialTiers[1..];
    assert InitialTiers == [InitialTiers[0]] + rest;
    FilterCons(InitialTiers[0], rest, p);
    FilterKeepsAll(rest, p);
    RenumberKeepsIds(rest);
  }
}
