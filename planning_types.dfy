/** The records of the planning mode (src/types/index.ts). */
module PlanningTypes {
  import opened Common

  datatype Currency = XOF | USD | EUR

  datatype ItemStatus = Planned | Purchased | Cancelled

  /** A line of a budget list. `order` is optional, as in the stored data. */
  datatype Item = Item(
    id: string,
    name: string,
    amount: real,
    status: ItemStatus,
    listId: string,
    createdAt: int,
    order: Option<int>)

  /** A budget list. An absent `isArchived` reads as "not archived". */
  datatype List = List(
    id: string,
    name: string,
    budget: real,
    currency: Currency,
    items: seq<Item>,
    createdAt: int,
    isArchived: Option<bool>)

  datatype Settings = Settings(defaultCurrency: Currency, isOnboarded: bool)
}
