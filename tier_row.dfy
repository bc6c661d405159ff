/**
 * One tier row's handlers (src/components/TierRow.tsx): committing an edited
 * caption, inserting a new tier above or below, removing the tier, and the
 * drop target the row registers.
 */
module TierRowView {
  import opened Wrappers
  import opened Store
  import opened Dnd

  /** What both insert buttons pass to `addTier`: caption "NEW" and the zinc styling. */
  const NewTierProps: TierProps := TierProps("NEW", "bg-zinc-800", "text-zinc-300 font-bold", "border-zinc-700/50")

  /** The row's drop target: the tier's own id, typed "Tier". */
  function Droppable(tier: Tier): (d: Dnd.Droppable)
    ensures d.id == tier.id && d.kind == Some(TierKind)
    ensures d != Dnd.TrashZone && d != Dnd.ItemPool
  {
    Dnd.Droppable(tier.id, Some(TierKind))
  }

  /**
   * The characters `String.prototype.trim` removes: ECMAScript's WhiteSpace
   * (tab, vertical tab, form feed, space, no-break space, zero-width no-break
   * space and the Unicode space separators) and LineTerminator.
   */
  predicate IsJsWhiteSpace(c: char) {
    || c == '\t' || c == '\n' || c == '\U{0B}' || c == '\U{0C}' || c == '\r' || c == ' '
    || c == '\U{A0}' || c == '\U{1680}' || ('\U{2000}' <= c <= '\U{200A}')
    || c == '\U{2028}' || c == '\U{2029}' || c == '\U{202F}' || c == '\U{205F}'
    || c == '\U{3000}' || c == '\U{FEFF}'
  }

  /** `s` without its leading white space: the longest suffix not starting with white space. */
  function TrimStart(s: string): (r: string)
    ensures |r| <= |s| && r == s[|s| - |r|..]
    ensures forall i :: 0 <= i < |s| - |r| ==> IsJsWhiteSpace(s[i])
    ensures r == [] || !IsJsWhiteSpace(r[0])
  {
    if s != [] && IsJsWhiteSpace(s[0]) then TrimStart(s[1..]) else s
  }

  /** `s` without its trailing white space: the longest prefix not ending in white space. */
  function TrimEnd(s: string): (r: string)
    ensures |r| <= |s| && r == s[..|r|]
    ensures forall i :: |r| <= i < |s| ==> IsJsWhiteSpace(s[i])
    ensures r == [] || !IsJsWhiteSpace(r[|r| - 1])
  {
    if s != [] && IsJsWhiteSpace(s[|s| - 1]) then TrimEnd(s[..|s| - 1]) else s
  }

  /** `s.trim()`: empty exactly when `s` is made of white space only. */
  function Trim(s: string): (r: string)
    ensures r == [] <==> forall i :: 0 <= i < |s| ==> IsJsWhiteSpace(s[i])
  {
    var t := TrimStart(s);
    var r := TrimEnd(t);
    assert r == [] ==> forall i :: 0 <= i < |s| ==> IsJsWhiteSpace(s[i]) by {
      if r == [] && t != [] {
        assert false;
      }
    }
    assert (forall i :: 0 <= i < |s| ==> IsJsWhiteSpace(s[i])) ==> t == [] by {
      if t != [] {
        assert t[0] == s[|s| - |t|];
      }
    }
    r
  }

  /** Insert-above lands the new tier right before this one, which moves down by one, given the order invariant. */
  lemma InsertAbovePlacesBefore(tiers: seq<Tier>, k: nat, newId: string)
    requires Dense(tiers) && k < |tiers|
    ensures var r := TiersAfterInsert(tiers, tiers[k].order, newId, NewTierProps);
      && r[k].id == newId && Props(r[k]) == NewTierProps && r[k].caption == "NEW"
      && Strip(r[k + 1]) == Strip(tiers[k]) && r[k + 1].order == tiers[k].order + 1
  {
  }

  /** Insert-below lands the new tier right after this one, which keeps its place, given the order invariant. */
  lemma InsertBelowPlacesAfter(tiers: seq<Tier>, k: nat, newId: string)
    requires Dense(tiers) && k < |tiers|
    ensures var r := TiersAfterInsert(tiers, tiers[k].order + 1, newId, NewTierProps);
      && r[k + 1].id == newId && Props(r[k + 1]) == NewTierProps && r[k + 1].caption == "NEW"
      && r[k] == tiers[k]
  {
  }

  /** `InsertAbovePlacesBefore` for every index showing `tier`. */
  lemma InsertAboveLandsAtRow(tiers: seq<Tier>, tier: Tier, newId: string)
    requires Dense(tiers)
    ensures var r := TiersAfterInsert(tiers, tier.order, newId, NewTierProps);
      forall k :: 0 <= k < |tiers| && tiers[k] == tier ==>
        && r[k].id == newId && Props(r[k]) == NewTierProps
        && Strip(r[k + 1]) == Strip(tier) && r[k + 1].order == tier.order + 1
  {
    forall k | 0 <= k < |tiers| && tiers[k] == tier {
      InsertAbovePlacesBefore(tiers, k, newId);
    }
  }

  /** `InsertBelowPlacesAfter` for every index showing `tier`. */
  lemma InsertBelowLandsAfterRow(tiers: seq<Tier>, tier: Tier, newId: string)
    requires Dense(tiers)
    ensures var r := TiersAfterInsert(tiers, tier.order + 1, newId, NewTierProps);
      forall k :: 0 <= k < |tiers| && tiers[k] == tier ==>
        && r[k + 1].id == newId && Props(r[k + 1]) == NewTierProps && r[k] == tier
  {
    forall k | 0 <= k < |tiers| && tiers[k] == tier {
      InsertBelowPlacesAfter(tiers, k, newId);
    }
  }

  /**
   * The component state of one row: the `tier` prop of its latest render, which
   * every handler reads, and its edit buffer.
   */
  class TierRow {
    var tier: Tier
    var editingLabel: string

    /** `useState(tier.label)`. */
    constructor (tier: Tier)
      ensures this.tier == tier && editingLabel == tier.caption
    {
      this.tier := tier;
      editingLabel := tier.caption;
    }

    /**
     * A re-render with the current `tier` prop. The handlers close over the new
     * props, and the label-sync effect resets the buffer when the label changed.
     */
    method Rerender(tier: Tier)
      modifies this
      ensures this.tier == tier
      ensures editingLabel == if tier.caption != old(this.tier.caption) then tier.caption else old(editingLabel)
    {
      if tier.caption != this.tier.caption {
        editingLabel := tier.caption;
      }
      this.tier := tier;
    }

    /** The input's `onChange`. */
    method HandleLabelChange(value: string)
      modifies this
      ensures tier == old(tier) && editingLabel == value
    {
      editingLabel := value;
    }

    /**
     * `handleLabelBlur`: a caption with something besides white space is stored
     * as typed (untrimmed); a blank one leaves the store alone and reverts the buffer.
     */
    method HandleLabelBlur(store: TierStore)
      modifies this, store
      ensures tier == old(tier) && store.items == old(store.items)
      ensures Trim(old(editingLabel)) != [] ==>
        editingLabel == old(editingLabel) && store.tiers == TiersAfterLabel(old(store.tiers), tier.id, old(editingLabel))
      ensures Trim(old(editingLabel)) == [] ==>
        editingLabel == tier.caption && store.tiers == old(store.tiers)
    {
      if Trim(editingLabel) != [] {
        store.UpdateTierLabel(tier.id, editingLabel);
      } else {
        editingLabel := tier.caption;
      }
    }

    /**
     * `handleInsertAbove`: `addTier(tier.order, NEW)`; `newTierId` stands for the
     * generated id. On a well-ranked board showing this row at `k`, the new tier
     * takes index `k` and this row moves down one.
     */
    method HandleInsertAbove(store: TierStore, newTierId: string)
      modifies store
      ensures store.items == old(store.items)
      ensures store.tiers == TiersAfterInsert(old(store.tiers), tier.order, newTierId, NewTierProps)
      ensures old(store.Valid()) ==> forall k :: 0 <= k < |old(store.tiers)| && old(store.tiers)[k] == tier ==>
        && store.tiers[k].id == newTierId && Props(store.tiers[k]) == NewTierProps
        && Strip(store.tiers[k + 1]) == Strip(tier) && store.tiers[k + 1].order == tier.order + 1
    {
      ghost var before := store.tiers;
      store.AddTier(tier.order, NewTierProps, newTierId);
      if Dense(before) {
        InsertAboveLandsAtRow(before, tier, newTierId);
      }
    }

    /**
     * `handleInsertBelow`: `addTier(tier.order + 1, NEW)`. On a well-ranked board
     * showing this row at `k`, the new tier lands right after it and this row stays.
     */
    method HandleInsertBelow(store: TierStore, newTierId: string)
      modifies store
      ensures store.items == old(store.items)
      ensures store.tiers == TiersAfterInsert(old(store.tiers), tier.order + 1, newTierId, NewTierProps)
      ensures old(store.Valid()) ==> forall k :: 0 <= k < |old(store.tiers)| && old(store.tiers)[k] == tier ==>
        && store.tiers[k + 1].id == newTierId && Props(store.tiers[k + 1]) == NewTierProps
        && store.tiers[k] == tier
    {
      ghost var before := store.tiers;
      store.AddTier(tier.order + 1, NewTierProps, newTierId);
      if Dense(before) {
        InsertBelowLandsAfterRow(before, tier, newTierId);
      }
    }

    /** The delete button: `removeTier(tier.id)`, which sends this row's items back to the pool. */
    method HandleRemove(store: TierStore)
      modifies store
      ensures store.tiers == TiersAfterRemove(old(store.tiers), tier.id)
      ensures store.items == ItemsAfterRemoveTier(old(store.items), tier.id)
    {
      store.RemoveTier(tier.id);
    }
  }

  /**
   * Inserting above the row at `k` twice, with the re-render React performs in
   * between: the row is then at `k + 1` with order `k + 1`, and the second new
   * tier lands directly above it, below the first.
   */
  lemma InsertAboveTwice(tiers: seq<Tier>, k: nat, first: string, second: string)
    requires Dense(tiers) && k < |tiers|
    ensures var once := TiersAfterInsert(tiers, tiers[k].order, first, NewTierProps);
      && Strip(once[k + 1]) == Strip(tiers[k]) && once[k + 1].order == k + 1
      && TierIds(TiersAfterInsert(once, once[k + 1].order, second, NewTierProps))
         == TierIds(tiers)[..k] + [first, second] + TierIds(tiers)[k..]
  {
    var ids := TierIds(tiers);
    assert tiers[k].order == k;
    var once := TiersAfterInsert(tiers, k, first, NewTierProps);
    assert once[k + 1].order == k + 1;
    InsertedIds(tiers, k, first, NewTierProps);
    var onceIds := TierIds(once);
    assert onceIds == ids[..k] + [first] + ids[k..];
    assert onceIds[..k + 1] == ids[..k] + [first];
    assert onceIds[k + 1..] == ids[k..];
    InsertedIds(once, k + 1, second, NewTierProps);
    assert TierIds(TiersAfterInsert(once, k + 1, second, NewTierProps)) == onceIds[..k + 1] + [second] + onceIds[k + 1..];
  }

  /**
   * The same two clicks through the handlers: a row rendered for the tier at
   * `k` inserts above, is re-rendered with its tier's new props, and inserts
   * above again.
   */
  method InsertAboveTwiceThroughRow(store: TierStore, k: nat, first: string, second: string)
    requires store.Valid() && k < |store.tiers|
    modifies store
    ensures store.items == old(store.items)
    ensures TierIds(store.tiers) == old(TierIds(store.tiers))[..k] + [first, second] + old(TierIds(store.tiers))[k..]
  {
    ghost var tiers := store.tiers;
    InsertAboveTwice(tiers, k, first, second);
    var row := new TierRow(store.tiers[k]);
    row.HandleInsertAbove(store, first);
    row.Rerender(store.tiers[k + 1]);
    row.HandleInsertAbove(store, second);
  }
}
