/**
 * The drop targets the board registers with the drag-and-drop library. The
 * library itself (sensors, pointer-within collision detection) is not modelled:
 * a drag end simply delivers the one resolved target, or none.
 */
module Dnd {
  import opened Wrappers
  import opened Store

  /** The `over` of a drag-end event: the droppable's id and its `data.current?.type`. */
  datatype Droppable = Droppable(id: string, kind: Option<string>)

  const TrashZoneId: string := "trash-zone"
  const ItemPoolId: string := "item-pool"

  const TrashZoneKind: string := "TrashZone"
  const ItemPoolKind: string := "ItemPool"
  const TierKind: string := "Tier"
  const ItemKind: string := "Item"

  /** The trash bin (src/components/TrashZone.tsx:9-14). */
  const TrashZone: Droppable := Droppable(TrashZoneId, Some(TrashZoneKind))

  /** The unassigned pool (src/components/ItemPool.tsx:18-23). */
  const ItemPool: Droppable := Droppable(ItemPoolId, Some(ItemPoolKind))

  /** Every rendered item is itself a drop target (src/components/SortableItem.tsx:18-24). */
  function ItemDroppable(item: Item): (d: Droppable)
    ensures d.id == item.id && d.kind == Some(ItemKind)
    ensures d != TrashZone && d != ItemPool
  {
    Droppable(item.id, Some(ItemKind))
  }
}
