/** The planning-mode store of src/store/useStore.ts: budget lists holding
    items, the actions that rewrite the `lists` and `settings` fields, and the
    two totals helpers. Ids and timestamps, which the store draws from
    `uuidv4()` and `Date.now()`, are parameters of the actions. */
module ListStore {
  import opened Common
  import opened PlanningTypes

  // ---------------------------------------------------------------------------
  // Partial updates
  // ---------------------------------------------------------------------------

  /** A `Partial<List>`: `None` is a key the update object does not carry. */
  datatype ListPatch = ListPatch(
    id: Option<string>,
    name: Option<string>,
    budget: Option<real>,
    currency: Option<Currency>,
    items: Option<seq<Item>>,
    createdAt: Option<int>,
    isArchived: Option<bool>)

  /** A `Partial<Item>`. */
  datatype ItemPatch = ItemPatch(
    id: Option<string>,
    name: Option<string>,
    amount: Option<real>,
    status: Option<ItemStatus>,
    listId: Option<string>,
    createdAt: Option<int>,
    order: Option<int>)

  /** The update that carries no key. */
  const NoListChange := ListPatch(None, None, None, None, None, None, None)

  const NoItemChange := ItemPatch(None, None, None, None, None, None, None)

  /** A key of the spread: the update's value when it carries the key. */
  function Pick<T>(update: Option<T>, current: T): T
  {
    if update.Some? then update.value else current
  }

  /** An optional key of the spread. */
  function PickOptional<T>(update: Option<T>, current: Option<T>): Option<T>
  {
    if update.Some? then update else current
  }

  /** `{ ...l, ...p }` */
  function MergeList(l: List, p: ListPatch): (r: List)
    ensures r.id == Pick(p.id, l.id) && r.name == Pick(p.name, l.name) && r.budget == Pick(p.budget, l.budget)
    ensures r.currency == Pick(p.currency, l.currency) && r.items == Pick(p.items, l.items)
    ensures r.createdAt == Pick(p.createdAt, l.createdAt) && r.isArchived == PickOptional(p.isArchived, l.isArchived)
  {
    List(Pick(p.id, l.id), Pick(p.name, l.name), Pick(p.budget, l.budget), Pick(p.currency, l.currency),
         Pick(p.items, l.items), Pick(p.createdAt, l.createdAt), PickOptional(p.isArchived, l.isArchived))
  }

  /** `{ ...i, ...p }` */
  function MergeItem(i: Item, p: ItemPatch): (r: Item)
    ensures r.id == Pick(p.id, i.id) && r.name == Pick(p.name, i.name) && r.amount == Pick(p.amount, i.amount)
    ensures r.status == Pick(p.status, i.status) && r.listId == Pick(p.listId, i.listId)
    ensures r.createdAt == Pick(p.createdAt, i.createdAt) && r.order == PickOptional(p.order, i.order)
  {
    Item(Pick(p.id, i.id), Pick(p.name, i.name), Pick(p.amount, i.amount), Pick(p.status, i.status),
         Pick(p.listId, i.listId), Pick(p.createdAt, i.createdAt), PickOptional(p.order, i.order))
  }

  /** `{ ...p, ...q }` on two list updates. */
  function ThenList(p: ListPatch, q: ListPatch): ListPatch
  {
    ListPatch(PickOptional(q.id, p.id), PickOptional(q.name, p.name), PickOptional(q.budget, p.budget),
              PickOptional(q.currency, p.currency), PickOptional(q.items, p.items),
              PickOptional(q.createdAt, p.createdAt), PickOptional(q.isArchived, p.isArchived))
  }

  /** Merging two updates one after the other is merging their combination. */
  lemma MergeListTwice(l: List, p: ListPatch, q: ListPatch)
    ensures MergeList(MergeList(l, p), q) == MergeList(l, ThenList(p, q))
  {
  }

  /** Merging the same update again changes nothing. */
  lemma MergeListIdempotent(l: List, p: ListPatch)
    ensures MergeList(MergeList(l, p), p) == MergeList(l, p)
  {
    MergeListTwice(l, p, p);
    assert ThenList(p, p) == p;
  }

  lemma MergeListNothing(l: List)
    ensures MergeList(l, NoListChange) == l
  {
  }

  lemma MergeItemIdempotent(i: Item, p: ItemPatch)
    ensures MergeItem(MergeItem(i, p), p) == MergeItem(i, p)
  {
  }

  lemma MergeItemNothing(i: Item)
    ensures MergeItem(i, NoItemChange) == i
  {
  }

  // ---------------------------------------------------------------------------
  // Lists
  // ---------------------------------------------------------------------------

  const DefaultSettings := Settings(USD, false)

  /** The list `addList` creates: empty, not archived, in the default currency. */
  function NewList(name: string, budget: real, currency: Currency, id: string, createdAt: int): (r: List)
    ensures r.id == id && r.name == name && r.budget == budget && r.currency == currency && r.createdAt == createdAt
    ensures r.items == [] && IsActive(r)
  {
    List(id, name, budget, currency, [], createdAt, Some(false))
  }

  /** `lists.map(l => l.id === id ? { ...l, ...p } : l)` */
  function UpdatedLists(lists: seq<List>, id: string, p: ListPatch): (r: seq<List>)
    ensures |r| == |lists|
    ensures forall k :: 0 <= k < |lists| && lists[k].id != id ==> r[k] == lists[k]
    ensures forall k :: 0 <= k < |lists| && lists[k].id == id ==> r[k] == MergeList(lists[k], p)
  {
    if |lists| == 0 then []
    else [if lists[0].id == id then MergeList(lists[0], p) else lists[0]] + UpdatedLists(lists[1..], id, p)
  }

  /** Updating a list no entry carries changes nothing. */
  lemma UpdateAbsentList(lists: seq<List>, id: string, p: ListPatch)
    requires forall l :: l in lists ==> l.id != id
    ensures UpdatedLists(lists, id, p) == lists
  {
    var r := UpdatedLists(lists, id, p);
    forall k | 0 <= k < |lists| ensures r[k] == lists[k] {
      assert lists[k] in lists;
    }
  }

  /** Applying the same update twice is applying it once. */
  lemma UpdateListIdempotent(lists: seq<List>, id: string, p: ListPatch)
    ensures UpdatedLists(UpdatedLists(lists, id, p), id, p) == UpdatedLists(lists, id, p)
  {
    var once := UpdatedLists(lists, id, p);
    var twice := UpdatedLists(once, id, p);
    forall k | 0 <= k < |lists| ensures twice[k] == once[k] {
      if lists[k].id == id {
        MergeListIdempotent(lists[k], p);
      }
    }
  }

  /** `lists.filter(l => l.id !== id)` */
  function WithoutList(lists: seq<List>, id: string): (r: seq<List>)
    ensures forall l :: l in r <==> l in lists && l.id != id
  {
    Filter(lists, (l: List) => l.id != id)
  }

  /** `lists.filter(l => !ids.includes(l.id))` */
  function WithoutLists(lists: seq<List>, ids: seq<string>): (r: seq<List>)
    ensures forall l :: l in r <==> l in lists && l.id !in ids
  {
    Filter(lists, (l: List) => l.id !in ids)
  }

  /** Deleting one id in bulk is deleting that list. */
  lemma {:induction false} DeleteOneOfMany(lists: seq<List>, id: string)
    ensures WithoutLists(lists, [id]) == WithoutList(lists, id)
  {
    if |lists| > 0 {
      DeleteOneOfMany(lists[1..], id);
    }
  }

  /** Two bulk deletions are one bulk deletion of both id lists. */
  lemma {:induction false} DeleteListsTwice(lists: seq<List>, ids: seq<string>, more: seq<string>)
    ensures WithoutLists(WithoutLists(lists, ids), more) == WithoutLists(lists, ids + more)
  {
    if |lists| > 0 {
      var l, tail := lists[0], lists[1..];
      assert lists == [l] + tail;
      DeleteListsTwice(tail, ids, more);
      WithoutListsCons(l, tail, ids);
      WithoutListsCons(l, tail, ids + more);
      if l.id !in ids {
        WithoutListsCons(l, WithoutLists(tail, ids), more);
      }
    }
  }

  lemma WithoutListsCons(l: List, lists: seq<List>, ids: seq<string>)
    ensures l.id !in ids ==> WithoutLists([l] + lists, ids) == [l] + WithoutLists(lists, ids)
    ensures l.id in ids ==> WithoutLists([l] + lists, ids) == WithoutLists(lists, ids)
  {
    assert ([l] + lists)[0] == l;
    assert ([l] + lists)[1..] == lists;
    assert [] + WithoutLists(lists, ids) == WithoutLists(lists, ids);
  }

  /** Deleting an id no list carries changes nothing. */
  lemma DeleteAbsentList(lists: seq<List>, id: string)
    requires forall l :: l in lists ==> l.id != id
    ensures WithoutList(lists, id) == lists
  {
    FilterKeepsAll(lists, (l: List) => l.id != id);
  }

  /** Deleting a list just added with a fresh id restores the previous lists. */
  lemma AddThenDeleteList(lists: seq<List>, name: string, budget: real, currency: Currency, id: string, createdAt: int)
    requires forall l :: l in lists ==> l.id != id
    ensures WithoutList([NewList(name, budget, currency, id, createdAt)] + lists, id) == lists
  {
    var keep := (l: List) => l.id != id;
    FilterCons(NewList(name, budget, currency, id, createdAt), lists, keep);
    FilterKeepsAll(lists, keep);
  }

  /** `lists.map(l => ids.includes(l.id) ? { ...l, isArchived: archived } : l)` */
  function SetArchived(lists: seq<List>, ids: seq<string>, archived: bool): (r: seq<List>)
    ensures |r| == |lists|
    ensures forall k :: 0 <= k < |lists| && lists[k].id !in ids ==> r[k] == lists[k]
    ensures forall k :: 0 <= k < |lists| && lists[k].id in ids ==> r[k] == lists[k].(isArchived := Some(archived))
  {
    if |lists| == 0 then []
    else
      [if lists[0].id in ids then lists[0].(isArchived := Some(archived)) else lists[0]] +
      SetArchived(lists[1..], ids, archived)
  }

  /** Archiving (or unarchiving) the same ids twice is doing it once. */
  lemma SetArchivedIdempotent(lists: seq<List>, ids: seq<string>, archived: bool)
    ensures SetArchived(SetArchived(lists, ids, archived), ids, archived) == SetArchived(lists, ids, archived)
  {
  }

  /** Of an archive and an unarchive of the same ids, the later one wins. */
  lemma ArchiveThenUnarchive(lists: seq<List>, ids: seq<string>, archived: bool)
    ensures SetArchived(SetArchived(lists, ids, archived), ids, !archived) == SetArchived(lists, ids, !archived)
  {
  }

  /** The index `findIndex` returns for `id`, if any. */
  function FirstIndex(lists: seq<List>, id: string): (r: Option<nat>)
    ensures r.None? <==> forall k :: 0 <= k < |lists| ==> lists[k].id != id
    ensures r.Some? ==> r.value < |lists| && lists[r.value].id == id &&
                        (forall k :: 0 <= k < r.value ==> lists[k].id != id)
  {
    if |lists| == 0 then None
    else if lists[0].id == id then Some(0)
    else
      match FirstIndex(lists[1..], id)
      case None => None
      case Some(k) => Some(k + 1)
  }

  // ---------------------------------------------------------------------------
  // Items
  // ---------------------------------------------------------------------------

  /** `i.order || 0` */
  function OrderOrZero(i: Item): int
  {
    if i.order.Some? then i.order.value else 0
  }

  /** `items.reduce((max, i) => Math.max(max, i.order || 0), -1)` */
  function MaxOrder(items: seq<Item>): (m: int)
    ensures m >= -1
    ensures forall i :: i in items ==> OrderOrZero(i) <= m
    ensures m == -1 || exists i :: i in items && OrderOrZero(i) == m
  {
    if |items| == 0 then -1
    else
      var prev := MaxOrder(items[..|items| - 1]);
      var last := items[|items| - 1];
      assert items == items[..|items| - 1] + [last];
      if OrderOrZero(last) > prev then OrderOrZero(last) else prev
  }

  /** The order `addItem` gives a new item: the least order above every existing
      one and above -1. */
  function NextOrder(items: seq<Item>): (n: int)
    ensures n >= 0
    ensures forall i :: i in items ==> OrderOrZero(i) < n
    ensures n == 0 || exists i :: i in items && OrderOrZero(i) == n - 1
  {
    MaxOrder(items) + 1
  }

  /** The item `addItem` creates; the status defaults to planned. */
  function NewItem(listId: string, name: string, amount: real, status: Option<ItemStatus>,
                   id: string, createdAt: int, items: seq<Item>): (r: Item)
    ensures r.id == id && r.listId == listId && r.name == name && r.amount == amount && r.createdAt == createdAt
    ensures r.status == (if status.Some? then status.value else Planned)
    ensures r.order.Some? && forall i :: i in items ==> OrderOrZero(i) < OrderOrZero(r)
  {
    Item(id, name, amount, Pick(status, Planned), listId, createdAt, Some(NextOrder(items)))
  }

  /** `addItem`: the first list with id `listId` gets the new item in front of
      its items; without such a list nothing changes. */
  function ItemAdded(lists: seq<List>, listId: string, name: string, amount: real, status: Option<ItemStatus>,
                     id: string, createdAt: int): (r: seq<List>)
    ensures FirstIndex(lists, listId).None? ==> r == lists
    ensures FirstIndex(lists, listId).Some? ==>
      var k := FirstIndex(lists, listId).value;
      var item := NewItem(listId, name, amount, status, id, createdAt, lists[k].items);
      |r| == |lists| &&
      r[k] == lists[k].(items := [item] + lists[k].items) &&
      forall k' :: 0 <= k' < |lists| && k' != k ==> r[k'] == lists[k']
  {
    match FirstIndex(lists, listId)
    case None => lists
    case Some(k) =>
      var item := NewItem(listId, name, amount, status, id, createdAt, lists[k].items);
      lists[k := lists[k].(items := [item] + lists[k].items)]
  }

  /** The new item goes first, comes after every existing item in `order`,
      and is planned unless a status was given. */
  lemma NewItemGoesFirst(lists: seq<List>, listId: string, name: string, amount: real,
                         status: Option<ItemStatus>, id: string, createdAt: int)
    requires FirstIndex(lists, listId).Some?
    ensures var k := FirstIndex(lists, listId).value;
      var r := ItemAdded(lists, listId, name, amount, status, id, createdAt);
      |r[k].items| == |lists[k].items| + 1 &&
      r[k].items[0].order.Some? &&
      (forall i :: i in lists[k].items ==> OrderOrZero(i) < r[k].items[0].order.value) &&
      r[k].items[0].status == (if status.Some? then status.value else Planned) &&
      r[k].items[1..] == lists[k].items
  {
    var k := FirstIndex(lists, listId).value;
    var item := NewItem(listId, name, amount, status, id, createdAt, lists[k].items);
    assert ([item] + lists[k].items)[1..] == lists[k].items;
  }

  /** The lists with id `listId` get `edit(items)`; every other list is untouched. */
  function EditItems(lists: seq<List>, listId: string, edit: seq<Item> -> seq<Item>): (r: seq<List>)
    ensures |r| == |lists|
    ensures forall k :: 0 <= k < |lists| && lists[k].id != listId ==> r[k] == lists[k]
    ensures forall k :: 0 <= k < |lists| && lists[k].id == listId ==>
      r[k] == lists[k].(items := edit(lists[k].items))
  {
    if |lists| == 0 then []
    else
      [if lists[0].id == listId then lists[0].(items := edit(lists[0].items)) else lists[0]] +
      EditItems(lists[1..], listId, edit)
  }

  /** Editing the items of a list no entry carries changes nothing. */
  lemma EditAbsentList(lists: seq<List>, listId: string, edit: seq<Item> -> seq<Item>)
    requires forall l :: l in lists ==> l.id != listId
    ensures EditItems(lists, listId, edit) == lists
  {
    var r := EditItems(lists, listId, edit);
    forall k | 0 <= k < |lists| ensures r[k] == lists[k] {
      assert lists[k] in lists;
    }
  }

  /** `items.map(i => i.id === itemId ? { ...i, ...p } : i)` */
  function UpdatedItems(items: seq<Item>, itemId: string, p: ItemPatch): (r: seq<Item>)
    ensures |r| == |items|
    ensures forall k :: 0 <= k < |items| && items[k].id != itemId ==> r[k] == items[k]
    ensures forall k :: 0 <= k < |items| && items[k].id == itemId ==> r[k] == MergeItem(items[k], p)
  {
    if |items| == 0 then []
    else [if items[0].id == itemId then MergeItem(items[0], p) else items[0]] + UpdatedItems(items[1..], itemId, p)
  }

  lemma UpdateItemIdempotent(items: seq<Item>, itemId: string, p: ItemPatch)
    ensures UpdatedItems(UpdatedItems(items, itemId, p), itemId, p) == UpdatedItems(items, itemId, p)
  {
    var once := UpdatedItems(items, itemId, p);
    var twice := UpdatedItems(once, itemId, p);
    forall k | 0 <= k < |items| ensures twice[k] == once[k] {
      if items[k].id == itemId {
        MergeItemIdempotent(items[k], p);
      }
    }
  }

  /** `items.filter(i => i.id !== itemId)` */
  function WithoutItem(items: seq<Item>, itemId: string): (r: seq<Item>)
    ensures forall i :: i in r <==> i in items && i.id != itemId
  {
    Filter(items, (i: Item) => i.id != itemId)
  }

  lemma DeleteItemIdempotent(items: seq<Item>, itemId: string)
    ensures WithoutItem(WithoutItem(items, itemId), itemId) == WithoutItem(items, itemId)
  {
    FilterIdempotent(items, (i: Item) => i.id != itemId);
  }

  /** Deleting an item just added with a fresh id restores the previous lists. */
  lemma AddThenDeleteItem(lists: seq<List>, listId: string, name: string, amount: real,
                          status: Option<ItemStatus>, id: string, createdAt: int)
    requires forall l, i :: l in lists && i in l.items ==> i.id != id
    ensures EditItems(ItemAdded(lists, listId, name, amount, status, id, createdAt), listId,
                      (items: seq<Item>) => WithoutItem(items, id)) == lists
  {
    var added := ItemAdded(lists, listId, name, amount, status, id, createdAt);
    var r := EditItems(added, listId, (items: seq<Item>) => WithoutItem(items, id));
    var keep := (i: Item) => i.id != id;
    forall k | 0 <= k < |lists| ensures r[k] == lists[k] {
      assert lists[k] in lists;
      FilterKeepsAll(lists[k].items, keep);
      if FirstIndex(lists, listId) == Some(k) {
        var item := NewItem(listId, name, amount, status, id, createdAt, lists[k].items);
        FilterCons(item, lists[k].items, keep);
      }
    }
  }

  /** The ids of `items`. */
  function ItemIds(items: seq<Item>): set<string>
  {
    set i | i in items :: i.id
  }

  /** `reorderedItems.map((item, index) => ({ ...item, order: index }))` */
  function Renumbered(items: seq<Item>): (r: seq<Item>)
    ensures |r| == |items|
    ensures forall k :: 0 <= k < |items| ==> r[k] == items[k].(order := Some(k))
  {
    seq(|items|, k requires 0 <= k < |items| => items[k].(order := Some(k)))
  }

  /** `reorderItems` on one list: the items not named in `moved`, in their
      order, then the named ones in the given order, numbered from 0. */
  function ReorderedItems(items: seq<Item>, moved: seq<Item>): (r: seq<Item>)
    ensures |moved| <= |r| <= |items| + |moved|
    ensures r[..|r| - |moved|] == Filter(items, (i: Item) => i.id !in ItemIds(moved))
    ensures forall k :: 0 <= k < |moved| ==> r[|r| - |moved| + k] == moved[k].(order := Some(k))
  {
    var others := Filter(items, (i: Item) => i.id !in ItemIds(moved));
    var r := others + Renumbered(moved);
    assert r[..|others|] == others;
    r
  }

  /** When the moved items are items of the list, reordering keeps the set of ids. */
  lemma ReorderKeepsIds(items: seq<Item>, moved: seq<Item>)
    requires ItemIds(moved) <= ItemIds(items)
    ensures ItemIds(ReorderedItems(items, moved)) == ItemIds(items)
  {
    var keep := (i: Item) => i.id !in ItemIds(moved);
    var others := Filter(items, keep);
    var renumbered := Renumbered(moved);
    var r := ReorderedItems(items, moved);
    assert r == others + renumbered;
    forall u | u in ItemIds(items) ensures u in ItemIds(r) {
      var i :| i in items && i.id == u;
      if u in ItemIds(moved) {
        var m :| m in moved && m.id == u;
        var k :| 0 <= k < |moved| && moved[k] == m;
        assert renumbered[k] in r;
      } else {
        assert i in others;
      }
    }
    forall u | u in ItemIds(r) ensures u in ItemIds(items) {
      var i :| i in r && i.id == u;
      if i in renumbered {
        var k :| 0 <= k < |renumbered| && renumbered[k] == i;
        assert moved[k] in moved;
      }
    }
  }

  /** Reordering the same items again changes nothing. */
  lemma ReorderIdempotent(items: seq<Item>, moved: seq<Item>)
    ensures ReorderedItems(ReorderedItems(items, moved), moved) == ReorderedItems(items, moved)
  {
    var keep := (i: Item) => i.id !in ItemIds(moved);
    var others := Filter(items, keep);
    var renumbered := Renumbered(moved);
    assert ReorderedItems(items, moved) == others + renumbered;
    FilterConcat(others, renumbered, keep);
    FilterIdempotent(items, keep);
    forall i | i in renumbered ensures !keep(i) {
      var k :| 0 <= k < |renumbered| && renumbered[k] == i;
      assert moved[k] in moved;
    }
    FilterNone(renumbered, keep);
    assert others + [] == others;
  }

  // ---------------------------------------------------------------------------
  // Totals
  // ---------------------------------------------------------------------------

  /** What `calculateListTotals` returns. */
  datatype ListTotals = ListTotals(planned: real, spent: real, remaining: real, isOverBudget: bool)

  /** What `calculateGlobalTotals` returns. */
  datatype GlobalTotals = GlobalTotals(totalBudget: real, totalSpent: real)

  /** `items.reduce((acc, i) => acc + i.amount, 0)` */
  function Amounts(items: seq<Item>): real
  {
    if |items| == 0 then 0.0 else items[0].amount + Amounts(items[1..])
  }

  lemma AmountsCons(i: Item, items: seq<Item>)
    ensures Amounts([i] + items) == i.amount + Amounts(items)
  {
    assert ([i] + items)[0] == i;
    assert ([i] + items)[1..] == items;
  }

  predicate IsCounted(i: Item) { i.status != Cancelled }

  predicate IsPurchased(i: Item) { i.status == Purchased }

  predicate IsOpen(i: Item) { i.status == Planned }

  /** The totals of one list: the planned amount counts every item not cancelled,
      the spent amount only the purchased ones. */
  function CalculateListTotals(list: List): (t: ListTotals)
    ensures t.remaining == list.budget - t.planned
    ensures t.isOverBudget <==> t.planned > list.budget
  {
    var planned := Amounts(Filter(list.items, IsCounted));
    var spent := Amounts(Filter(list.items, IsPurchased));
    var remaining := list.budget - planned;
    ListTotals(planned, spent, remaining, remaining < 0.0)
  }

  /** Every item not cancelled is either still planned or purchased. */
  lemma {:induction false} PlannedIsOpenPlusSpent(items: seq<Item>)
    ensures Amounts(Filter(items, IsCounted)) == Amounts(Filter(items, IsOpen)) + Amounts(Filter(items, IsPurchased))
  {
    if |items| > 0 {
      var i, tail := items[0], items[1..];
      assert items == [i] + tail;
      PlannedIsOpenPlusSpent(tail);
      FilterCons(i, tail, IsCounted);
      FilterCons(i, tail, IsOpen);
      FilterCons(i, tail, IsPurchased);
      AmountsCons(i, Filter(tail, IsCounted));
      AmountsCons(i, Filter(tail, IsOpen));
      AmountsCons(i, Filter(tail, IsPurchased));
    }
  }

  lemma {:induction false} AmountsNonNegative(items: seq<Item>)
    requires forall i :: i in items ==> i.amount >= 0.0
    ensures Amounts(items) >= 0.0
  {
    if |items| > 0 {
      assert items[0] in items;
      forall i | i in items[1..] ensures i.amount >= 0.0 {
        assert i in items;
      }
      AmountsNonNegative(items[1..]);
    }
  }

  /** With no negative amounts a list never has spent more than it planned. */
  lemma SpentAtMostPlanned(list: List)
    requires forall i :: i in list.items ==> i.amount >= 0.0
    ensures CalculateListTotals(list).spent <= CalculateListTotals(list).planned
  {
    PlannedIsOpenPlusSpent(list.items);
    AmountsNonNegative(Filter(list.items, IsOpen));
  }

  /** Putting an item in front adds its amount to the planned total unless it
      is cancelled, and to the spent total when it is purchased. */
  lemma AddedItemTotals(list: List, item: Item)
    ensures var before := CalculateListTotals(list);
      var after := CalculateListTotals(list.(items := [item] + list.items));
      after.planned == before.planned + (if IsCounted(item) then item.amount else 0.0) &&
      after.spent == before.spent + (if IsPurchased(item) then item.amount else 0.0)
  {
    FilterCons(item, list.items, IsCounted);
    FilterCons(item, list.items, IsPurchased);
    AmountsCons(item, Filter(list.items, IsCounted));
    AmountsCons(item, Filter(list.items, IsPurchased));
  }

  /** `!l.isArchived`: an absent flag reads as active. */
  predicate IsActive(l: List) { l.isArchived != Some(true) }

  function ActiveLists(lists: seq<List>): seq<List>
  {
    Filter(lists, IsActive)
  }

  /** `lists.reduce((acc, l) => acc + l.budget, 0)` */
  function Budgets(lists: seq<List>): real
  {
    if |lists| == 0 then 0.0 else lists[0].budget + Budgets(lists[1..])
  }

  /** `lists.reduce((acc, l) => acc + calculateListTotals(l).spent, 0)` */
  function Spending(lists: seq<List>): real
  {
    if |lists| == 0 then 0.0 else CalculateListTotals(lists[0]).spent + Spending(lists[1..])
  }

  /** Budget and spending summed over the active lists only. */
  function CalculateGlobalTotals(lists: seq<List>): (g: GlobalTotals)
    ensures g.totalBudget == Budgets(ActiveLists(lists)) && g.totalSpent == Spending(ActiveLists(lists))
    ensures (forall l :: l in lists ==> !IsActive(l)) ==> g == GlobalTotals(0.0, 0.0)
  {
    var active := ActiveLists(lists);
    assert (forall l :: l in lists ==> !IsActive(l)) ==> active == [] by {
      if forall l :: l in lists ==> !IsActive(l) {
        FilterNone(lists, IsActive);
      }
    }
    GlobalTotals(Budgets(active), Spending(active))
  }

  /** Archived lists count for nothing. */
  lemma ArchivedListsCountNothing(lists: seq<List>)
    ensures CalculateGlobalTotals(lists) == CalculateGlobalTotals(ActiveLists(lists))
  {
    FilterIdempotent(lists, IsActive);
  }

  /** For the totals, archiving lists is the same as deleting them. */
  lemma {:induction false} ArchiveIsDeleteForTotals(lists: seq<List>, ids: seq<string>)
    ensures ActiveLists(SetArchived(lists, ids, true)) == ActiveLists(WithoutLists(lists, ids))
  {
    if |lists| > 0 {
      var l, tail := lists[0], lists[1..];
      assert lists == [l] + tail;
      ArchiveIsDeleteForTotals(tail, ids);
      var archived := SetArchived(lists, ids, true);
      assert archived == [archived[0]] + SetArchived(tail, ids, true);
      FilterCons(archived[0], SetArchived(tail, ids, true), IsActive);
      WithoutListsCons(l, tail, ids);
      if l.id !in ids {
        FilterCons(l, WithoutLists(tail, ids), IsActive);
      }
    }
  }

  lemma ArchivedTotals(lists: seq<List>, ids: seq<string>)
    ensures CalculateGlobalTotals(SetArchived(lists, ids, true)) == CalculateGlobalTotals(WithoutLists(lists, ids))
  {
    ArchiveIsDeleteForTotals(lists, ids);
  }

  /** A new list adds its budget to the global budget and nothing to the spending. */
  lemma NewListTotals(lists: seq<List>, name: string, budget: real, currency: Currency, id: string, createdAt: int)
    ensures var l := NewList(name, budget, currency, id, createdAt);
      CalculateGlobalTotals([l] + lists) ==
        GlobalTotals(budget + CalculateGlobalTotals(lists).totalBudget, CalculateGlobalTotals(lists).totalSpent)
  {
    var l := NewList(name, budget, currency, id, createdAt);
    var s := [l] + lists;
    assert s[0] == l && s[1..] == lists;
    var active := ActiveLists(lists);
    assert ActiveLists(s) == [l] + active;
    assert ([l] + active)[1..] == active;
  }

  // ---------------------------------------------------------------------------
  // The store
  // ---------------------------------------------------------------------------

  /** The store's state and its actions. */
  class StoreState {
    var lists: seq<List>
    var settings: Settings

    /** The initial state: no lists, US dollars, not onboarded. */
    constructor ()
      ensures lists == [] && settings == DefaultSettings
    {
      lists := [];
      settings := DefaultSettings;
    }

    /** `addList`: a new, empty list in the default currency goes first. */
    method AddList(name: string, budget: real, id: string, createdAt: int)
      modifies this
      ensures lists == [NewList(name, budget, old(settings).defaultCurrency, id, createdAt)] + old(lists)
      ensures settings == old(settings)
    {
      var newList := NewList(name, budget, settings.defaultCurrency, id, createdAt);
      lists := [newList] + lists;
    }

    method UpdateList(id: string, updates: ListPatch)
      modifies this
      ensures lists == UpdatedLists(old(lists), id, updates)
      ensures settings == old(settings)
    {
      lists := UpdatedLists(lists, id, updates);
    }

    method DeleteList(id: string)
      modifies this
      ensures lists == WithoutList(old(lists), id)
      ensures settings == old(settings)
    {
      lists := WithoutList(lists, id);
    }

    method ArchiveLists(ids: seq<string>)
      modifies this
      ensures lists == SetArchived(old(lists), ids, true)
      ensures settings == old(settings)
    {
      lists := SetArchived(lists, ids, true);
    }

    method UnarchiveLists(ids: seq<string>)
      modifies this
      ensures lists == SetArchived(old(lists), ids, false)
      ensures settings == old(settings)
    {
      lists := SetArchived(lists, ids, false);
    }

    method DeleteLists(ids: seq<string>)
      modifies this
      ensures lists == WithoutLists(old(lists), ids)
      ensures settings == old(settings)
    {
      lists := WithoutLists(lists, ids);
    }

    method AddItem(listId: string, name: string, amount: real, status: Option<ItemStatus>, id: string, createdAt: int)
      modifies this
      ensures lists == ItemAdded(old(lists), listId, name, amount, status, id, createdAt)
      ensures settings == old(settings)
    {
      var listIndex := FirstIndex(lists, listId);
      if listIndex.None? {
        return;
      }
      var k := listIndex.value;
      var currentItems := lists[k].items;
      var newItem := NewItem(listId, name, amount, status, id, createdAt, currentItems);
      lists := lists[k := lists[k].(items := [newItem] + currentItems)];
    }

    method ReorderItems(listId: string, reorderedItems: seq<Item>)
      modifies this
      ensures lists == EditItems(old(lists), listId, (items: seq<Item>) => ReorderedItems(items, reorderedItems))
      ensures settings == old(settings)
    {
      lists := EditItems(lists, listId, (items: seq<Item>) => ReorderedItems(items, reorderedItems));
    }

    method UpdateItem(listId: string, itemId: string, updates: ItemPatch)
      modifies this
      ensures lists == EditItems(old(lists), listId, (items: seq<Item>) => UpdatedItems(items, itemId, updates))
      ensures settings == old(settings)
    {
      lists := EditItems(lists, listId, (items: seq<Item>) => UpdatedItems(items, itemId, updates));
    }

    method DeleteItem(listId: string, itemId: string)
      modifies this
      ensures lists == EditItems(old(lists), listId, (items: seq<Item>) => WithoutItem(items, itemId))
      ensures settings == old(settings)
    {
      lists := EditItems(lists, listId, (items: seq<Item>) => WithoutItem(items, itemId));
    }

    method SetCurrency(currency: Currency)
      modifies this
      ensures settings == old(settings).(defaultCurrency := currency)
      ensures lists == old(lists)
    {
      settings := settings.(defaultCurrency := currency);
    }

    method SetSettings(newSettings: Settings)
      modifies this
      ensures settings == newSettings && lists == old(lists)
    {
      settings := newSettings;
    }

    method ResetStore()
      modifies this
      ensures lists == [] && settings == DefaultSettings
    {
      lists, settings := [], DefaultSettings;
    }

    method ImportData(newLists: seq<List>, newSettings: Settings)
      modifies this
      ensures lists == newLists && settings == newSettings
    {
      lists, settings := newLists, newSettings;
    }
  }
}
