/** The records of the expenses mode, as the data layer delivers them
    (src/types/expenses.type.ts). Money is a `real`; timestamps and dates are
    the strings the data layer stores. */
module ExpenseTypes {
  import opened Common

  /** A user identity, owned by the identity provider. */
  datatype Profile = Profile(
    id: string,
    email: Option<string>,
    displayName: Option<string>,
    avatarUrl: Option<string>,
    createdAt: string,
    updatedAt: string)

  datatype Role = Admin | Member

  /** One membership of a group. The profile is always present in this model:
      the balance computation force-unwraps it with a type assertion, so the
      model makes it required. */
  datatype GroupMember = GroupMember(
    id: string,
    groupId: string,
    userId: string,
    role: Role,
    joinedAt: string,
    profile: Profile)

  /** What one member owes of one expense. */
  datatype GroupExpenseSplit = GroupExpenseSplit(
    id: string,
    expenseId: string,
    userId: string,
    shareAmount: real)

  /** A shared expense: the payer advanced `amount`; `splits` say who owes what.
      A missing `splits` field is the empty sequence. */
  datatype GroupExpense = GroupExpense(
    id: string,
    groupId: string,
    payerId: string,
    title: string,
    amount: real,
    categoryId: Option<string>,
    expenseDate: string,
    splits: seq<GroupExpenseSplit>)

  /** A personal expense of the expense journal. */
  datatype PersonalExpense = PersonalExpense(
    id: string,
    userId: string,
    title: string,
    amount: real,
    categoryId: Option<string>,
    expenseDate: string,
    createdAt: string,
    updatedAt: string)

  /** What the app sends to create a personal expense. */
  datatype CreatePersonalExpensePayload = CreatePersonalExpensePayload(
    title: string,
    amount: real,
    categoryId: Option<string>,
    expenseDate: string)

  /** A member's position in a group: `balance` is `paid - owed`. */
  datatype MemberBalance = MemberBalance(
    userId: string,
    profile: Profile,
    paid: real,
    owed: real,
    balance: real)

  /** `from` pays `to` the given amount. */
  datatype Debt = Debt(from: Profile, to: Profile, amount: real)
}
