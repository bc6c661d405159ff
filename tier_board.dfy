/**
 * The board's projection of the store into rows (src/components/TierBoard.tsx):
 * one row per tier, each showing the items that belong to it.
 */
module TierBoardView {
  import opened Wrappers
  import opened Seqs
  import opened Store

  /** `items.filter(item => item.tierId === tierId)`. */
  function ItemsOf(items: seq<Item>, tierId: string): (r: seq<Item>)
    ensures forall x :: x in r <==> x in items && x.tierId == Some(tierId)
    ensures IsSubsequence(r, items)
  {
    FilterMembers(items, (item: Item) => item.tierId == Some(tierId));
    FilterIsSubsequence(items, (item: Item) => item.tierId == Some(tierId));
    Filter(items, (item: Item) => item.tierId == Some(tierId))
  }

  /** A row holds every copy of every item assigned to its tier. */
  lemma ItemsOfCounts(items: seq<Item>, tierId: string)
    ensures forall x :: multiset(ItemsOf(items, tierId))[x] == if x.tierId == Some(tierId) then multiset(items)[x] else 0
  {
    FilterCounts(items, (item: Item) => item.tierId == Some(tierId));
  }

  /** What one `TierRow` is rendered with. */
  datatype RowView = RowView(tier: Tier, items: seq<Item>)

  /**
   * `tiers.map(tier => <TierRow tier={tier} items={...} />)`: one row per tier
   * in tier order, each with exactly the items assigned to that tier, in store order.
   */
  function Rows(tiers: seq<Tier>, items: seq<Item>): (rows: seq<RowView>)
    ensures |rows| == |tiers|
    ensures forall k :: 0 <= k < |rows| ==> rows[k].tier == tiers[k] && IsSubsequence(rows[k].items, items)
    ensures forall k, x :: 0 <= k < |rows| ==> (x in rows[k].items <==> x in items && x.tierId == Some(tiers[k].id))
  {
    seq(|tiers|, k requires 0 <= k < |tiers| => RowView(tiers[k], ItemsOf(items, tiers[k].id)))
  }

  /** Each rendered row holds every copy of every item assigned to its tier, and nothing else. */
  lemma RowsCounts(tiers: seq<Tier>, items: seq<Item>, k: nat)
    requires k < |tiers|
    ensures forall x :: multiset(Rows(tiers, items)[k].items)[x] == if x.tierId == Some(tiers[k].id) then multiset(items)[x] else 0
  {
    ItemsOfCounts(items, tiers[k].id);
  }
}
