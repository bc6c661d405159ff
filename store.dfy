/**
 * The tier-list store (src/store/useTierStore.ts): an ordered sequence of tiers
 * and a sequence of items, each item either in a tier (`tierId == Some(id)`) or
 * in the unassigned pool (`tierId == None`).
 *
 * Every store operation is a total transition of the whole state. Each one is
 * given here as a pure function of the old tiers or items (the `map`, `filter`
 * and `splice` the source computes), with its meaning in its `ensures` and in
 * lemmas; the class `TierStore` holds the two fields the source's `set`
 * replaces and its methods assign exactly those functions' results.
 */
module Store {
  import opened Wrappers
  import opened Seqs

  /** A ranked row. `order` is meant to equal the tier's index in the sequence. */
  datatype Tier = Tier(id: string, caption: string, bgClass: string, textClass: string, borderClass: string, order: int)

  /** What `addTier` is given: a tier without its `id` and `order` (`Omit<Tier, "id" | "order">`). */
  datatype TierProps = TierProps(caption: string, bgClass: string, textClass: string, borderClass: string)

  /** An image; `tierId == None` means it sits in the pool. */
  datatype Item = Item(id: string, imageUrl: string, tierId: Option<string>)

  /** `Partial<Tier>`: every field may or may not be given. */
  datatype TierPatch = TierPatch(
    id: Option<string>, caption: Option<string>, bgClass: Option<string>,
    textClass: Option<string>, borderClass: Option<string>, order: Option<int>)

  function Props(t: Tier): TierProps {
    TierProps(t.caption, t.bgClass, t.textClass, t.borderClass)
  }

  /** A tier with its rank erased: everything but `order`. */
  function Strip(t: Tier): Tier {
    t.(order := 0)
  }

  function TierIds(tiers: seq<Tier>): seq<string> {
    seq(|tiers|, i requires 0 <= i < |tiers| => tiers[i].id)
  }

  function ItemIds(items: seq<Item>): seq<string> {
    seq(|items|, i requires 0 <= i < |items| => items[i].id)
  }

  /** The store's order invariant: orders are exactly the positions 0..n-1. */
  predicate Dense(tiers: seq<Tier>) {
    forall i :: 0 <= i < |tiers| ==> tiers[i].order == i
  }

  predicate DistinctTierIds(tiers: seq<Tier>) {
    NoDuplicates(TierIds(tiers))
  }

  predicate DistinctItemIds(items: seq<Item>) {
    NoDuplicates(ItemIds(items))
  }

  /** No item refers to a tier that does not exist. */
  predicate RefsValid(tiers: seq<Tier>, items: seq<Item>) {
    forall i :: 0 <= i < |items| && items[i].tierId.Some? ==> items[i].tierId.value in TierIds(tiers)
  }

  /** The five default tiers S, A, B, C, D (useTierStore.ts:32-73). */
  const InitialTiers: seq<Tier> := [
    Tier("S", "S", "bg-red-950/30", "text-red-400 font-bold", "border-red-900/30", 0),
    Tier("A", "A", "bg-orange-950/30", "text-orange-400 font-bold", "border-orange-900/30", 1),
    Tier("B", "B", "bg-yellow-950/30", "text-yellow-400 font-bold", "border-yellow-900/30", 2),
    Tier("C", "C", "bg-green-950/30", "text-green-400 font-bold", "border-green-900/30", 3),
    Tier("D", "D", "bg-blue-950/30", "text-blue-400 font-bold", "border-blue-900/30", 4)
  ]

  /** The default board is well formed: ids S..D in that order, orders 0..4, labels equal to ids. */
  lemma InitialTiersShape()
    ensures TierIds(InitialTiers) == ["S", "A", "B", "C", "D"]
    ensures Dense(InitialTiers) && DistinctTierIds(InitialTiers)
    ensures forall i :: 0 <= i < |InitialTiers| ==> InitialTiers[i].caption == InitialTiers[i].id
  {
  }

  // ---------------------------------------------------------------- tiers

  /** `tiers.map((tier, idx) => ({ ...tier, order: idx }))`: the same tiers, ranked by position. */
  function Renumber(tiers: seq<Tier>): (r: seq<Tier>)
    ensures |r| == |tiers| && Dense(r)
    ensures forall i :: 0 <= i < |r| ==> Strip(r[i]) == Strip(tiers[i])
  {
    seq(|tiers|, i requires 0 <= i < |tiers| => tiers[i].(order := i))
  }

  /** Renumbering a sequence that already satisfies the order invariant changes nothing. */
  lemma RenumberDense(tiers: seq<Tier>)
    requires Dense(tiers)
    ensures Renumber(tiers) == tiers
  {
  }

  /**
   * The position `Array.prototype.splice(start, ...)` acts on in an array of
   * length `len`: a negative start counts back from the end, and the result is
   * clamped to 0..len.
   */
  function SpliceStart(len: nat, start: int): (k: nat)
    ensures k <= len
    ensures 0 <= start <= len ==> k == start
    ensures start + len < 0 ==> k == 0
    ensures start < 0 && 0 <= len + start ==> k == len + start
    ensures start > len ==> k == len
  {
    if start < 0 then (if len + start < 0 then 0 else len + start)
    else if start > len then len
    else start
  }

  /**
   * `addTier(index, props)` (useTierStore.ts:114-133): the new tier, with the
   * given id and props, is spliced in at `index` and all orders are renumbered.
   */
  function TiersAfterInsert(tiers: seq<Tier>, index: int, newId: string, props: TierProps): (r: seq<Tier>)
    ensures |r| == |tiers| + 1 && Dense(r)
    ensures var k := SpliceStart(|tiers|, index);
      && r[k].id == newId && Props(r[k]) == props
      && (forall i :: 0 <= i < k ==> Strip(r[i]) == Strip(tiers[i]))
      && (forall i :: k <= i < |tiers| ==> Strip(r[i + 1]) == Strip(tiers[i]))
  {
    var k := SpliceStart(|tiers|, index);
    var newTier := Tier(newId, props.caption, props.bgClass, props.textClass, props.borderClass, index);
    var spliced := tiers[..k] + [newTier] + tiers[k..];
    assert forall i :: k <= i < |tiers| ==> spliced[i + 1] == tiers[i];
    Renumber(spliced)
  }

  /**
   * `removeTier(t)`, tier half (useTierStore.ts:137-143): every tier with id
   * `t` is dropped and the rest are renumbered.
   */
  function TiersAfterRemove(tiers: seq<Tier>, t: string): (r: seq<Tier>)
    ensures Dense(r) && |r| <= |tiers|
    ensures forall x :: x in TierIds(r) <==> x in TierIds(tiers) && x != t
  {
    var kept := Filter(tiers, (tier: Tier) => tier.id != t);
    RenumberKeepsIds(kept);
    KeptTierIds(tiers, t);
    Renumber(kept)
  }

  /** Renumbering does not touch ids. */
  lemma RenumberKeepsIds(tiers: seq<Tier>)
    ensures TierIds(Renumber(tiers)) == TierIds(tiers)
  {
  }

  /** The ids left after filtering out id `t` are the old ids other than `t`. */
  lemma KeptTierIds(tiers: seq<Tier>, t: string)
    ensures forall x :: x in TierIds(Filter(tiers, (tier: Tier) => tier.id != t)) <==> x in TierIds(tiers) && x != t
  {
    var kept := Filter(tiers, (tier: Tier) => tier.id != t);
    FilterMembers(tiers, (tier: Tier) => tier.id != t);
    forall x ensures x in TierIds(kept) <==> x in TierIds(tiers) && x != t {
      if x in TierIds(kept) {
        var i :| 0 <= i < |kept| && TierIds(kept)[i] == x;
        assert kept[i] in kept;
        var j :| 0 <= j < |tiers| && tiers[j] == kept[i];
        assert TierIds(tiers)[j] == x;
      }
      if x in TierIds(tiers) && x != t {
        var j :| 0 <= j < |tiers| && TierIds(tiers)[j] == x;
        assert tiers[j] in tiers;
        var i :| 0 <= i < |kept| && kept[i] == tiers[j];
        assert TierIds(kept)[i] == x;
      }
    }
  }

  function StripAll(tiers: seq<Tier>): seq<Tier> {
    seq(|tiers|, i requires 0 <= i < |tiers| => Strip(tiers[i]))
  }

  /** Stripping ranks commutes with filtering on anything but the rank. */
  lemma {:induction false} StripAllFilter(tiers: seq<Tier>, t: string)
    ensures StripAll(Filter(tiers, (tier: Tier) => tier.id != t)) == Filter(StripAll(tiers), (tier: Tier) => tier.id != t)
  {
    if tiers != [] {
      StripAllFilter(tiers[1..], t);
      assert StripAll(tiers) == [Strip(tiers[0])] + StripAll(tiers[1..]);
      assert Filter(tiers, (tier: Tier) => tier.id != t)
        == (if tiers[0].id != t then [tiers[0]] else []) + Filter(tiers[1..], (tier: Tier) => tier.id != t);
      assert forall a, b :: StripAll(a + b) == StripAll(a) + StripAll(b);
    }
  }

  /**
   * What survives `removeTier(t)`: exactly the tiers whose id is not `t`, with
   * all their fields but `order`, in their previous relative order.
   */
  lemma RemoveTierKeepsOthersInOrder(tiers: seq<Tier>, t: string)
    ensures StripAll(TiersAfterRemove(tiers, t)) == Filter(StripAll(tiers), (tier: Tier) => tier.id != t)
  {
    var kept := Filter(tiers, (tier: Tier) => tier.id != t);
    StripAllFilter(tiers, t);
    assert StripAll(Renumber(kept)) == StripAll(kept);
  }

  /**
   * Removing an id no tier carries only renormalises the orders; a well-ranked
   * sequence comes back exactly as it was.
   */
  lemma RemoveAbsentTier(tiers: seq<Tier>, t: string)
    requires t !in TierIds(tiers)
    ensures TiersAfterRemove(tiers, t) == Renumber(tiers)
    ensures Dense(tiers) ==> TiersAfterRemove(tiers, t) == tiers
  {
    forall i | 0 <= i < |tiers| ensures tiers[i].id != t {
      assert TierIds(tiers)[i] == tiers[i].id;
    }
    FilterKeepsAll(tiers, (tier: Tier) => tier.id != t);
    if Dense(tiers) {
      RenumberDense(tiers);
    }
  }

  /** Filtering out id `t` keeps tier ids distinct. */
  lemma {:induction false} FilterKeepsTierIdsDistinct(tiers: seq<Tier>, t: string)
    requires DistinctTierIds(tiers)
    ensures DistinctTierIds(Filter(tiers, (tier: Tier) => tier.id != t))
  {
    if tiers != [] {
      var rest := tiers[1..];
      assert tiers == [tiers[0]] + rest;
      assert TierIds(tiers) == [tiers[0].id] + TierIds(rest);
      assert TierIds(rest) == TierIds(tiers)[1..];
      FilterKeepsTierIdsDistinct(rest, t);
      FilterCons(tiers[0], rest, (tier: Tier) => tier.id != t);
      if tiers[0].id != t {
        var kept := Filter(rest, (tier: Tier) => tier.id != t);
        KeptTierIds(rest, t);
        forall j | 0 <= j < |rest| ensures TierIds(rest)[j] != tiers[0].id {
          assert TierIds(tiers)[0] != TierIds(tiers)[j + 1];
        }
        assert tiers[0].id !in TierIds(rest);
        assert tiers[0].id !in TierIds(kept);
        assert [] + TierIds(kept) == TierIds(kept);
        assert TierIds([tiers[0]] + kept) == [] + [tiers[0].id] + TierIds(kept);
        NoDuplicatesInsert([], tiers[0].id, TierIds(kept));
      } else {
        assert [] + Filter(rest, (tier: Tier) => tier.id != t) == Filter(rest, (tier: Tier) => tier.id != t);
      }
    }
  }

  /** `removeTier` never introduces two tiers with the same id. */
  lemma RemoveKeepsTierIdsDistinct(tiers: seq<Tier>, t: string)
    requires DistinctTierIds(tiers)
    ensures DistinctTierIds(TiersAfterRemove(tiers, t))
  {
    FilterKeepsTierIdsDistinct(tiers, t);
    RenumberKeepsIds(Filter(tiers, (tier: Tier) => tier.id != t));
  }

  /**
   * Round trip: removing a tier that was just inserted under a fresh id gives
   * back the original, well-ranked sequence.
   */
  lemma {:induction false} RemoveInsertedTier(tiers: seq<Tier>, index: int, newId: string, props: TierProps)
    requires Dense(tiers) && newId !in TierIds(tiers)
    ensures TiersAfterRemove(TiersAfterInsert(tiers, index, newId, props), newId) == tiers
  {
    var k := SpliceStart(|tiers|, index);
    var r := TiersAfterInsert(tiers, index, newId, props);
    InsertedFilteredOut(tiers, index, newId, props);
    var kept := r[..k] + r[k + 1..];
    forall i | 0 <= i < |tiers| ensures Strip(kept[i]) == Strip(tiers[i]) {
      if i < k {
        assert kept[i] == r[i];
      } else {
        assert kept[i] == r[i + 1];
      }
    }
    RenumberRestores(kept, tiers);
  }

  /** Filtering out a freshly inserted id drops exactly the inserted tier. */
  lemma {:induction false} InsertedFilteredOut(tiers: seq<Tier>, index: int, newId: string, props: TierProps)
    requires newId !in TierIds(tiers)
    ensures var k := SpliceStart(|tiers|, index);
      var r := TiersAfterInsert(tiers, index, newId, props);
      Filter(r, (tier: Tier) => tier.id != newId) == r[..k] + r[k + 1..]
  {
    var k := SpliceStart(|tiers|, index);
    var r := TiersAfterInsert(tiers, index, newId, props);
    var p := (tier: Tier) => tier.id != newId;
    InsertedIds(tiers, index, newId, props);
    forall i | 0 <= i < |r| && i != k ensures p(r[i]) {
      assert TierIds(r)[i] == r[i].id;
      assert TierIds(tiers)[if i < k then i else i - 1] == r[i].id;
    }
    assert r == r[..k] + [r[k]] + r[k + 1..];
    FilterSkipsOne(r[..k], r[k], r[k + 1..], p);
  }

  /** Renumbering tiers that agree with a well-ranked sequence on everything but `order` gives that sequence. */
  lemma RenumberRestores(kept: seq<Tier>, tiers: seq<Tier>)
    requires Dense(tiers) && |kept| == |tiers|
    requires forall i :: 0 <= i < |tiers| ==> Strip(kept[i]) == Strip(tiers[i])
    ensures Renumber(kept) == tiers
  {
  }

  /** The ids after `addTier`: the old ids with the new one spliced in at the clamped index. */
  lemma {:induction false} InsertedIds(tiers: seq<Tier>, index: int, newId: string, props: TierProps)
    ensures var k := SpliceStart(|tiers|, index);
      TierIds(TiersAfterInsert(tiers, index, newId, props)) == TierIds(tiers)[..k] + [newId] + TierIds(tiers)[k..]
  {
    var k := SpliceStart(|tiers|, index);
    var r := TiersAfterInsert(tiers, index, newId, props);
    var ids := TierIds(tiers)[..k] + [newId] + TierIds(tiers)[k..];
    forall i | 0 <= i < |r| ensures TierIds(r)[i] == ids[i] {
      if i < k {
        assert Strip(r[i]) == Strip(tiers[i]);
      } else if i > k {
        assert Strip(r[i]) == Strip(tiers[i - 1]);
      }
    }
  }

  /** The tier under `t` with the fields of `patch` spread over it (`{ ...tier, ...updates }`). */
  function ApplyPatch(tier: Tier, patch: TierPatch): (r: Tier)
    ensures patch.id.Some? ==> r.id == patch.id.value
    ensures patch.id.None? ==> r.id == tier.id
    ensures patch.order.Some? ==> r.order == patch.order.value
    ensures patch.order.None? ==> r.order == tier.order
    ensures Props(r) == TierProps(patch.caption.GetOr(tier.caption), patch.bgClass.GetOr(tier.bgClass),
                                  patch.textClass.GetOr(tier.textClass), patch.borderClass.GetOr(tier.borderClass))
    ensures patch == TierPatch(None, None, None, None, None, None) ==> r == tier
  {
    Tier(patch.id.GetOr(tier.id), patch.caption.GetOr(tier.caption), patch.bgClass.GetOr(tier.bgClass),
         patch.textClass.GetOr(tier.textClass), patch.borderClass.GetOr(tier.borderClass), patch.order.GetOr(tier.order))
  }

  /** Spreading the same patch twice is the same as spreading it once. */
  lemma PatchIdempotent(tier: Tier, patch: TierPatch)
    ensures ApplyPatch(ApplyPatch(tier, patch), patch) == ApplyPatch(tier, patch)
  {
  }

  /**
   * `updateTier(t, updates)` (useTierStore.ts:100-105): every tier with id `t`
   * gets the patch; the others and the length are unchanged.
   */
  function TiersAfterUpdate(tiers: seq<Tier>, t: string, patch: TierPatch): (r: seq<Tier>)
    ensures |r| == |tiers|
    ensures forall i :: 0 <= i < |r| && tiers[i].id != t ==> r[i] == tiers[i]
    ensures forall i :: 0 <= i < |r| && tiers[i].id == t ==> r[i] == ApplyPatch(tiers[i], patch)
  {
    seq(|tiers|, i requires 0 <= i < |tiers| => if tiers[i].id == t then ApplyPatch(tiers[i], patch) else tiers[i])
  }

  /** A patch that leaves `order` alone keeps the order invariant; one that leaves `id` alone keeps the ids. */
  lemma UpdateWithoutRankKeepsInvariant(tiers: seq<Tier>, t: string, patch: TierPatch)
    requires Dense(tiers)
    ensures patch.order.None? ==> Dense(TiersAfterUpdate(tiers, t, patch))
    ensures patch.id.None? ==> TierIds(TiersAfterUpdate(tiers, t, patch)) == TierIds(tiers)
  {
  }

  /** `updateTier` does not guard the order invariant: a patch with an `order` breaks it on the default board. */
  lemma UpdateWithRankBreaksInvariant()
    ensures Dense(InitialTiers)
    ensures !Dense(TiersAfterUpdate(InitialTiers, "S", TierPatch(None, None, None, None, None, Some(7))))
  {
    var r := TiersAfterUpdate(InitialTiers, "S", TierPatch(None, None, None, None, None, Some(7)));
    assert r[0].order == 7;
  }

  /**
   * `updateTierLabel(t, caption)` (useTierStore.ts:107-112): the tiers with id
   * `t` get `caption`; nothing else about any tier changes.
   */
  function TiersAfterLabel(tiers: seq<Tier>, t: string, caption: string): (r: seq<Tier>)
    ensures |r| == |tiers| && TierIds(r) == TierIds(tiers)
    ensures forall i :: 0 <= i < |r| ==> r[i].(caption := tiers[i].caption) == tiers[i]
    ensures forall i :: 0 <= i < |r| ==> r[i].caption == if tiers[i].id == t then caption else tiers[i].caption
    ensures Dense(tiers) ==> Dense(r)
  {
    seq(|tiers|, i requires 0 <= i < |tiers| => if tiers[i].id == t then tiers[i].(caption := caption) else tiers[i])
  }

  /** `updateTierLabel` is `updateTier` with a patch that only sets the caption. */
  lemma LabelIsLabelPatch(tiers: seq<Tier>, t: string, caption: string)
    ensures TiersAfterLabel(tiers, t, caption) == TiersAfterUpdate(tiers, t, TierPatch(None, Some(caption), None, None, None, None))
  {
  }

  /** Relabelling a tier that does not exist is a no-op. */
  lemma LabelAbsentTier(tiers: seq<Tier>, t: string, caption: string)
    requires t !in TierIds(tiers)
    ensures TiersAfterLabel(tiers, t, caption) == tiers
  {
    var r := TiersAfterLabel(tiers, t, caption);
    forall i | 0 <= i < |tiers| ensures r[i] == tiers[i] {
      assert TierIds(tiers)[i] == tiers[i].id;
    }
  }

  // ---------------------------------------------------------------- items

  /**
   * `moveItem(id, target)` (useTierStore.ts:81-86): every item with that id
   * gets `tierId := target`; the target is not checked against the tiers.
   */
  function ItemsAfterMove(items: seq<Item>, itemId: string, target: Option<string>): (r: seq<Item>)
    ensures |r| == |items| && ItemIds(r) == ItemIds(items)
    ensures forall i :: 0 <= i < |r| ==> r[i].(tierId := items[i].tierId) == items[i]
    ensures forall i :: 0 <= i < |r| ==> r[i].tierId == if items[i].id == itemId then target else items[i].tierId
  {
    seq(|items|, i requires 0 <= i < |items| => if items[i].id == itemId then items[i].(tierId := target) else items[i])
  }

  /** Moving an item that does not exist leaves the items exactly as they were. */
  lemma MoveAbsentItem(items: seq<Item>, itemId: string, target: Option<string>)
    requires itemId !in ItemIds(items)
    ensures ItemsAfterMove(items, itemId, target) == items
  {
    var r := ItemsAfterMove(items, itemId, target);
    forall i | 0 <= i < |items| ensures r[i] == items[i] {
      assert ItemIds(items)[i] == items[i].id;
    }
  }

  /** Moving to an existing tier or to the pool never creates a dangling reference. */
  lemma MoveKeepsRefsValid(tiers: seq<Tier>, items: seq<Item>, itemId: string, target: Option<string>)
    requires RefsValid(tiers, items)
    requires target.Some? ==> target.value in TierIds(tiers)
    ensures RefsValid(tiers, ItemsAfterMove(items, itemId, target))
  {
  }

  /** `addItem(url)` (useTierStore.ts:88-98): one new pool item, with the generated id, at the end. */
  function ItemsAfterAdd(items: seq<Item>, imageUrl: string, newId: string): (r: seq<Item>)
    ensures |r| == |items| + 1 && r[..|items|] == items
    ensures r[|items|] == Item(newId, imageUrl, None)
  {
    items + [Item(newId, imageUrl, None)]
  }

  /** `deleteItem(id)` (useTierStore.ts:153-156): every item with that id is dropped, the rest keep their order. */
  function ItemsAfterDelete(items: seq<Item>, itemId: string): (r: seq<Item>)
    ensures forall x :: x in r <==> x in items && x.id != itemId
    ensures IsSubsequence(r, items)
  {
    FilterIsSubsequence(items, (item: Item) => item.id != itemId);
    FilterMembers(items, (item: Item) => item.id != itemId);
    Filter(items, (item: Item) => item.id != itemId)
  }

  /** `deleteItem` keeps every copy of every item with another id. */
  lemma DeleteCounts(items: seq<Item>, itemId: string)
    ensures forall x :: multiset(ItemsAfterDelete(items, itemId))[x] == if x.id != itemId then multiset(items)[x] else 0
  {
    FilterCounts(items, (item: Item) => item.id != itemId);
  }

  /** Deleting an item that does not exist is a no-op. */
  lemma DeleteAbsentItem(items: seq<Item>, itemId: string)
    requires itemId !in ItemIds(items)
    ensures ItemsAfterDelete(items, itemId) == items
  {
    forall i | 0 <= i < |items| ensures items[i].id != itemId {
      assert ItemIds(items)[i] == items[i].id;
    }
    FilterKeepsAll(items, (item: Item) => item.id != itemId);
  }

  /** Round trip: deleting an item just added under a fresh id restores the item list. */
  lemma DeleteAddedItem(items: seq<Item>, imageUrl: string, newId: string)
    requires newId !in ItemIds(items)
    ensures ItemsAfterDelete(ItemsAfterAdd(items, imageUrl, newId), newId) == items
  {
    var p := (item: Item) => item.id != newId;
    forall i | 0 <= i < |items| ensures p(items[i]) {
      assert ItemIds(items)[i] == items[i].id;
    }
    assert items + [Item(newId, imageUrl, None)] == items + [Item(newId, imageUrl, None)] + [];
    FilterSkipsOne(items, Item(newId, imageUrl, None), [], p);
  }

  /** A fresh id keeps item ids distinct. */
  lemma AddKeepsItemIdsDistinct(items: seq<Item>, imageUrl: string, newId: string)
    requires DistinctItemIds(items) && newId !in ItemIds(items)
    ensures DistinctItemIds(ItemsAfterAdd(items, imageUrl, newId))
  {
    var ids := ItemIds(items);
    assert ItemIds(ItemsAfterAdd(items, imageUrl, newId)) == ids + [newId] + [];
    assert ids + [] == ids;
    NoDuplicatesInsert(ids, newId, []);
  }

  /**
   * `removeTier(t)`, item half (useTierStore.ts:145-150): exactly the items in
   * tier `t` go back to the pool; ids, images and order are untouched.
   */
  function ItemsAfterRemoveTier(items: seq<Item>, t: string): (r: seq<Item>)
    ensures |r| == |items| && ItemIds(r) == ItemIds(items)
    ensures forall i :: 0 <= i < |r| ==> r[i].imageUrl == items[i].imageUrl
    ensures forall i :: 0 <= i < |r| ==> r[i].tierId == if items[i].tierId == Some(t) then None else items[i].tierId
    ensures forall i :: 0 <= i < |r| ==> r[i].tierId != Some(t)
  {
    seq(|items| , i requires 0 <= i < |items| => if items[i].tierId == Some(t) then items[i].(tierId := None) else items[i])
  }

  /** After `removeTier` no item refers to a missing tier, if none did before. */
  lemma RemoveTierKeepsRefsValid(tiers: seq<Tier>, items: seq<Item>, t: string)
    requires RefsValid(tiers, items)
    ensures RefsValid(TiersAfterRemove(tiers, t), ItemsAfterRemoveTier(items, t))
  {
  }

  /** Inserting a tier keeps every existing reference valid. */
  lemma InsertKeepsRefsValid(tiers: seq<Tier>, items: seq<Item>, index: int, newId: string, props: TierProps)
    requires RefsValid(tiers, items)
    ensures RefsValid(TiersAfterInsert(tiers, index, newId, props), items)
  {
    var k := SpliceStart(|tiers|, index);
    InsertedIds(tiers, index, newId, props);
    var ids := TierIds(tiers);
    assert ids == ids[..k] + ids[k..];
    assert forall x :: x in ids ==> x in ids[..k] + [newId] + ids[k..];
  }

  /** A fresh tier id keeps tier ids distinct; the source's `tier-<time>` id does not guarantee freshness. */
  lemma {:induction false} InsertKeepsTierIdsDistinct(tiers: seq<Tier>, index: int, newId: string, props: TierProps)
    requires DistinctTierIds(tiers) && newId !in TierIds(tiers)
    ensures DistinctTierIds(TiersAfterInsert(tiers, index, newId, props))
  {
    var k := SpliceStart(|tiers|, index);
    var ids := TierIds(tiers);
    InsertedIds(tiers, index, newId, props);
    assert ids == ids[..k] + ids[k..];
    NoDuplicatesInsert(ids[..k], newId, ids[k..]);
  }

  // ---------------------------------------------------------------- the store object

  /** The state container; every method replaces `tiers` and/or `items` in one step, as `set` does. */
  class TierStore {
    var tiers: seq<Tier>
    var items: seq<Item>

    /** The order invariant every operation but `updateTier` keeps. */
    ghost predicate Valid()
      reads this
    {
      Dense(tiers)
    }

    /** A fresh store, without persisted state: the default tiers and no items. */
    constructor ()
      ensures tiers == InitialTiers && items == [] && Valid()
    {
      tiers := InitialTiers;
      items := [];
      InitialTiersShape();
    }

    method MoveItem(itemId: string, targetTierId: Option<string>)
      modifies this
      ensures tiers == old(tiers)
      ensures items == ItemsAfterMove(old(items), itemId, targetTierId)
    {
      items := ItemsAfterMove(items, itemId, targetTierId);
    }

    /** `newId` stands for the generated `item-<time>-<random>` id. */
    method AddItem(imageUrl: string, newId: string)
      modifies this
      ensures tiers == old(tiers)
      ensures items == ItemsAfterAdd(old(items), imageUrl, newId)
    {
      items := items + [Item(newId, imageUrl, None)];
    }

    method UpdateTier(tierId: string, updates: TierPatch)
      modifies this
      ensures items == old(items)
      ensures tiers == TiersAfterUpdate(old(tiers), tierId, updates)
      ensures old(Valid()) && updates.order.None? ==> Valid()
    {
      if Valid() {
        UpdateWithoutRankKeepsInvariant(tiers, tierId, updates);
      }
      tiers := TiersAfterUpdate(tiers, tierId, updates);
    }

    method UpdateTierLabel(tierId: string, caption: string)
      modifies this
      ensures items == old(items)
      ensures tiers == TiersAfterLabel(old(tiers), tierId, caption)
      ensures old(Valid()) ==> Valid()
    {
      tiers := TiersAfterLabel(tiers, tierId, caption);
    }

    /** `newTierId` stands for the generated `tier-<time>` id, which the source does not make unique. */
    method AddTier(tierIndex: int, newTierProps: TierProps, newTierId: string)
      modifies this
      ensures items == old(items)
      ensures tiers == TiersAfterInsert(old(tiers), tierIndex, newTierId, newTierProps)
      ensures Valid()
    {
      var newTier := Tier(newTierId, newTierProps.caption, newTierProps.bgClass,
                          newTierProps.textClass, newTierProps.borderClass, tierIndex);
      var k := SpliceStart(|tiers|, tierIndex);
      var updatedTiers := tiers[..k] + [newTier] + tiers[k..];
      tiers := Renumber(updatedTiers);
    }

    method RemoveTier(tierId: string)
      modifies this
      ensures tiers == TiersAfterRemove(old(tiers), tierId)
      ensures items == ItemsAfterRemoveTier(old(items), tierId)
      ensures Valid()
      ensures old(RefsValid(tiers, items)) ==> RefsValid(tiers, items)
    {
      if RefsValid(tiers, items) {
        RemoveTierKeepsRefsValid(tiers, items, tierId);
      }
      tiers, items := TiersAfterRemove(tiers, tierId), ItemsAfterRemoveTier(items, tierId);
    }

    method DeleteItem(itemId: string)
      modifies this
      ensures tiers == old(tiers)
      ensures items == ItemsAfterDelete(old(items), itemId)
    {
      items := ItemsAfterDelete(items, itemId);
    }

    method ClearAll()
      modifies this
      ensures tiers == InitialTiers && items == []
      ensures Valid() && RefsValid(tiers, items)
    {
      tiers, items := InitialTiers, [];
      InitialTiersShape();
    }
  }
}
