/** The group-settlement engine and the journal grouping of src/utils/balance.ts:
    per-member balances from shared expenses, the greedy largest-debtor /
    largest-creditor settlement, and the bucketing of expenses by date. */
module Balance {
  import opened Common
  import opened ExpenseTypes

  // ---------------------------------------------------------------------------
  // calculateMemberBalances
  // ---------------------------------------------------------------------------

  function UserIdOf(m: GroupMember): string { m.userId }

  /** The roster's user ids, each once, in order of first appearance: the key
      order of the `Map` the computation fills from the roster. */
  function RosterIds(members: seq<GroupMember>): seq<string>
  {
    DistinctKeys(members, UserIdOf)
  }

  /** The profile the roster gives `u`. Filling the `Map` overwrites the record of
      a repeated user id, so the last member with that id wins. */
  function LastProfile(members: seq<GroupMember>, u: string): Option<Profile>
  {
    if |members| == 0 then None
    else if members[|members| - 1].userId == u then Some(members[|members| - 1].profile)
    else LastProfile(members[..|members| - 1], u)
  }

  /** `LastProfile` is the profile of the last roster entry with that user id,
      and there is none exactly when the id is not on the roster. */
  lemma {:induction false} LastProfileIsLast(members: seq<GroupMember>, u: string)
    ensures LastProfile(members, u).None? <==> forall k :: 0 <= k < |members| ==> members[k].userId != u
    ensures LastProfile(members, u).Some? ==>
      exists k :: 0 <= k < |members| && members[k].userId == u && members[k].profile == LastProfile(members, u).value &&
        forall k' :: k < k' < |members| ==> members[k'].userId != u
  {
    if |members| > 0 && members[|members| - 1].userId != u {
      var prefix := members[..|members| - 1];
      LastProfileIsLast(prefix, u);
      if LastProfile(prefix, u).Some? {
        var k :| 0 <= k < |prefix| && prefix[k].userId == u && prefix[k].profile == LastProfile(prefix, u).value &&
          forall k' :: k < k' < |prefix| ==> prefix[k'].userId != u;
        assert members[k] == prefix[k];
      }
    }
  }

  /** Total `amount` of the expenses whose payer is `u`. */
  function PaidBy(expenses: seq<GroupExpense>, u: string): real
  {
    if |expenses| == 0 then 0.0
    else
      var e := expenses[|expenses| - 1];
      PaidBy(expenses[..|expenses| - 1], u) + (if e.payerId == u then e.amount else 0.0)
  }

  /** Total `share_amount` of the splits that name `u`. */
  function ShareOf(splits: seq<GroupExpenseSplit>, u: string): real
  {
    if |splits| == 0 then 0.0
    else
      var s := splits[|splits| - 1];
      ShareOf(splits[..|splits| - 1], u) + (if s.userId == u then s.shareAmount else 0.0)
  }

  /** Total that `u` owes over all splits of all expenses. */
  function OwedBy(expenses: seq<GroupExpense>, u: string): real
  {
    if |expenses| == 0 then 0.0
    else OwedBy(expenses[..|expenses| - 1], u) + ShareOf(expenses[|expenses| - 1].splits, u)
  }

  /** The `Map` keyed by user id: `order` is its key order, each record sits under its own id. */
  ghost predicate Keyed(order: seq<string>, table: map<string, MemberBalance>)
  {
    && (forall u :: u in table <==> u in order)
    && (forall u :: u in table ==> table[u].userId == u)
  }

  /** The `Map` after the roster pass over `seen`: one zeroed record per user id. */
  ghost predicate Seeded(seen: seq<GroupMember>, order: seq<string>, table: map<string, MemberBalance>)
  {
    && order == RosterIds(seen)
    && Keyed(order, table)
    && (forall u :: u in table ==>
          Some(table[u].profile) == LastProfile(seen, u) &&
          table[u].paid == 0.0 && table[u].owed == 0.0 && table[u].balance == 0.0)
  }

  /** The `Map` part-way through the expense pass: `paid` summed over `paidOver`,
      `owed` summed over `owedOver` plus the splits `pending` of the expense in hand. */
  ghost predicate Tallied(members: seq<GroupMember>, order: seq<string>, table: map<string, MemberBalance>,
                          paidOver: seq<GroupExpense>, owedOver: seq<GroupExpense>, pending: seq<GroupExpenseSplit>)
  {
    && Keyed(order, table)
    && (forall u :: u in table ==>
          Some(table[u].profile) == LastProfile(members, u) &&
          table[u].paid == PaidBy(paidOver, u) &&
          table[u].owed == OwedBy(owedOver, u) + ShareOf(pending, u) &&
          table[u].balance == 0.0)
  }

  /** The `Map` after the expense pass over `done`: paid and owed accumulated, balances not yet set. */
  ghost predicate Accumulated(members: seq<GroupMember>, done: seq<GroupExpense>, order: seq<string>,
                              table: map<string, MemberBalance>)
  {
    Tallied(members, order, table, done, done, [])
  }

  /** The roster callback: `balances.set(m.user_id, zeroed record)`. */
  method SeedMember(ghost seen: seq<GroupMember>, order: seq<string>, table: map<string, MemberBalance>, m: GroupMember)
    returns (order': seq<string>, table': map<string, MemberBalance>)
    requires Seeded(seen, order, table)
    ensures Seeded(seen + [m], order', table')
  {
    assert (seen + [m])[..|seen|] == seen;
    order' := order;
    if m.userId !in table {
      order' := order + [m.userId];
    }
    table' := table[m.userId := MemberBalance(m.userId, m.profile, 0.0, 0.0, 0.0)];
  }

  /** `payerBalance.paid += amount` when the payer has a record. */
  method CreditPayer(ghost members: seq<GroupMember>, ghost done: seq<GroupExpense>, order: seq<string>,
                     table: map<string, MemberBalance>, expense: GroupExpense)
    returns (table': map<string, MemberBalance>)
    requires Accumulated(members, done, order, table)
    ensures Tallied(members, order, table', done + [expense], done, [])
  {
    assert (done + [expense])[..|done|] == done;
    table' := table;
    if expense.payerId in table' {
      var b := table'[expense.payerId];
      table' := table'[expense.payerId := b.(paid := b.paid + expense.amount)];
    }
  }

  /** `memberBalance.owed += share_amount` when the split's member has a record. */
  method ChargeSplit(ghost members: seq<GroupMember>, ghost paidOver: seq<GroupExpense>, ghost owedOver: seq<GroupExpense>,
                     ghost pending: seq<GroupExpenseSplit>, order: seq<string>, table: map<string, MemberBalance>,
                     split: GroupExpenseSplit)
    returns (table': map<string, MemberBalance>)
    requires Tallied(members, order, table, paidOver, owedOver, pending)
    ensures Tallied(members, order, table', paidOver, owedOver, pending + [split])
  {
    assert (pending + [split])[..|pending|] == pending;
    table' := table;
    if split.userId in table' {
      var b := table'[split.userId];
      table' := table'[split.userId := b.(owed := b.owed + split.shareAmount)];
    }
  }

  /** The expense callback: credit the payer, then charge each split. */
  method AddExpense(ghost members: seq<GroupMember>, ghost done: seq<GroupExpense>, order: seq<string>,
                    table: map<string, MemberBalance>, expense: GroupExpense)
    returns (table': map<string, MemberBalance>)
    requires Accumulated(members, done, order, table)
    ensures Accumulated(members, done + [expense], order, table')
  {
    table' := CreditPayer(members, done, order, table, expense);
    for s := 0 to |expense.splits|
      invariant Tallied(members, order, table', done + [expense], done, expense.splits[..s])
    {
      assert expense.splits[..s + 1] == expense.splits[..s] + [expense.splits[s]];
      table' := ChargeSplit(members, done + [expense], done, expense.splits[..s], order, table', expense.splits[s]);
    }
    assert expense.splits[..|expense.splits|] == expense.splits;
    assert (done + [expense])[..|done|] == done;
  }

  /** The `Map` during the last pass: the members in `done` have their balance set. */
  ghost predicate Balanced(members: seq<GroupMember>, expenses: seq<GroupExpense>, order: seq<string>,
                           table: map<string, MemberBalance>, done: set<string>)
  {
    && Keyed(order, table)
    && (forall u :: u in table ==>
          Some(table[u].profile) == LastProfile(members, u) &&
          table[u].paid == PaidBy(expenses, u) && table[u].owed == OwedBy(expenses, u) &&
          table[u].balance == if u in done then table[u].paid - table[u].owed else 0.0)
  }

  /** The last callback: `b.balance = b.paid - b.owed`. */
  method SetBalance(ghost members: seq<GroupMember>, ghost expenses: seq<GroupExpense>, ghost done: set<string>,
                    order: seq<string>, table: map<string, MemberBalance>, u: string)
    returns (table': map<string, MemberBalance>)
    requires Balanced(members, expenses, order, table, done) && u in table
    ensures Balanced(members, expenses, order, table', done + {u})
  {
    var b := table[u];
    table' := table[u := b.(balance := b.paid - b.owed)];
  }

  /** The last pass: every record gets `balance = paid - owed`. */
  method SetBalances(ghost members: seq<GroupMember>, ghost expenses: seq<GroupExpense>,
                     order: seq<string>, table: map<string, MemberBalance>)
    returns (table': map<string, MemberBalance>)
    requires Accumulated(members, expenses, order, table)
    ensures Balanced(members, expenses, order, table', set u | u in order)
  {
    table' := table;
    ghost var done: set<string> := {};
    for k := 0 to |order|
      invariant Balanced(members, expenses, order, table', done)
      invariant forall u :: u in order[..k] ==> u in done
    {
      assert order[..k + 1] == order[..k] + [order[k]];
      table' := SetBalance(members, expenses, done, order, table', order[k]);
      done := done + {order[k]};
    }
    assert order[..|order|] == order;
  }

  /** Before the expense pass nothing has been paid or owed. */
  lemma SeededIsAccumulated(members: seq<GroupMember>, order: seq<string>, table: map<string, MemberBalance>)
    requires Seeded(members, order, table)
    ensures Accumulated(members, [], order, table)
  {
  }

  /** The roster pass: one zeroed record per user id. */
  method SeedRoster(members: seq<GroupMember>) returns (order: seq<string>, table: map<string, MemberBalance>)
    ensures Seeded(members, order, table)
  {
    order, table := [], map[];
    for k := 0 to |members|
      invariant Seeded(members[..k], order, table)
    {
      assert members[..k + 1] == members[..k] + [members[k]];
      order, table := SeedMember(members[..k], order, table, members[k]);
    }
    assert members[..|members|] == members;
  }

  /** The expense pass: every payer credited, every split charged. */
  method AddExpenses(ghost members: seq<GroupMember>, expenses: seq<GroupExpense>,
                     order: seq<string>, table: map<string, MemberBalance>)
    returns (table': map<string, MemberBalance>)
    requires Seeded(members, order, table)
    ensures Accumulated(members, expenses, order, table')
  {
    SeededIsAccumulated(members, order, table);
    table' := table;
    for i := 0 to |expenses|
      invariant Accumulated(members, expenses[..i], order, table')
    {
      assert expenses[..i + 1] == expenses[..i] + [expenses[i]];
      table' := AddExpense(members, expenses[..i], order, table', expenses[i]);
    }
    assert expenses[..|expenses|] == expenses;
  }

  /** `Array.from(balances.values())`: the records in key order. */
  method Collect(ghost members: seq<GroupMember>, ghost expenses: seq<GroupExpense>,
                 order: seq<string>, table: map<string, MemberBalance>)
    returns (r: seq<MemberBalance>)
    requires order == RosterIds(members)
    requires Balanced(members, expenses, order, table, set u | u in order)
    ensures |r| == |RosterIds(members)|
    ensures forall k :: 0 <= k < |r| ==> r[k].userId == RosterIds(members)[k]
    ensures forall k :: 0 <= k < |r| ==> LastProfile(members, r[k].userId) == Some(r[k].profile)
    ensures forall k :: 0 <= k < |r| ==> r[k].paid == PaidBy(expenses, r[k].userId)
    ensures forall k :: 0 <= k < |r| ==> r[k].owed == OwedBy(expenses, r[k].userId)
    ensures forall k :: 0 <= k < |r| ==> r[k].balance == r[k].paid - r[k].owed
  {
    r := seq(|order|, k requires 0 <= k < |order| => table[order[k]]);
  }

  /** One record per distinct roster user id, in roster order, with what that
      member paid, what they owe and the difference. Payers and split users
      outside the roster contribute to no record. */
  method CalculateMemberBalances(expenses: seq<GroupExpense>, members: seq<GroupMember>)
    returns (r: seq<MemberBalance>)
    ensures |r| == |RosterIds(members)|
    ensures forall k :: 0 <= k < |r| ==> r[k].userId == RosterIds(members)[k]
    ensures forall k :: 0 <= k < |r| ==> LastProfile(members, r[k].userId) == Some(r[k].profile)
    ensures forall k :: 0 <= k < |r| ==> r[k].paid == PaidBy(expenses, r[k].userId)
    ensures forall k :: 0 <= k < |r| ==> r[k].owed == OwedBy(expenses, r[k].userId)
    ensures forall k :: 0 <= k < |r| ==> r[k].balance == r[k].paid - r[k].owed
  {
    // The `Map`: its key order and its entries.
    var order, table := SeedRoster(members);
    table := AddExpenses(members, expenses, order, table);
    table := SetBalances(members, expenses, order, table);
    r := Collect(members, expenses, order, table);
  }

  /** An expense without splits adds to no one's `owed`. */
  lemma NoSplitsOweNothing(expenses: seq<GroupExpense>, e: GroupExpense, u: string)
    requires e.splits == []
    ensures OwedBy(expenses + [e], u) == OwedBy(expenses, u)
  {
    assert (expenses + [e])[..|expenses|] == expenses;
  }

  /** Sum of `paid` over the user ids `ids`. */
  function TotalPaid(expenses: seq<GroupExpense>, ids: seq<string>): real
  {
    if |ids| == 0 then 0.0 else TotalPaid(expenses, ids[..|ids| - 1]) + PaidBy(expenses, ids[|ids| - 1])
  }

  /** Sum of `owed` over the user ids `ids`. */
  function TotalOwed(expenses: seq<GroupExpense>, ids: seq<string>): real
  {
    if |ids| == 0 then 0.0 else TotalOwed(expenses, ids[..|ids| - 1]) + OwedBy(expenses, ids[|ids| - 1])
  }

  /** Sum of the shares the splits give the user ids `ids`. */
  function TotalShare(splits: seq<GroupExpenseSplit>, ids: seq<string>): real
  {
    if |ids| == 0 then 0.0 else TotalShare(splits, ids[..|ids| - 1]) + ShareOf(splits, ids[|ids| - 1])
  }

  /** Sum of all `amount`s. */
  function ExpenseTotal(expenses: seq<GroupExpense>): real
  {
    if |expenses| == 0 then 0.0
    else ExpenseTotal(expenses[..|expenses| - 1]) + expenses[|expenses| - 1].amount
  }

  /** Sum of all `share_amount`s. */
  function SplitTotal(splits: seq<GroupExpenseSplit>): real
  {
    if |splits| == 0 then 0.0 else SplitTotal(splits[..|splits| - 1]) + splits[|splits| - 1].shareAmount
  }

  /** Sum of all split totals. */
  function ChargedTotal(expenses: seq<GroupExpense>): real
  {
    if |expenses| == 0 then 0.0
    else ChargedTotal(expenses[..|expenses| - 1]) + SplitTotal(expenses[|expenses| - 1].splits)
  }

  /** Sum of the `balance` fields. */
  function BalanceTotal(balances: seq<MemberBalance>): real
  {
    if |balances| == 0 then 0.0
    else BalanceTotal(balances[..|balances| - 1]) + balances[|balances| - 1].balance
  }

  lemma {:induction false} TotalPaidSnoc(expenses: seq<GroupExpense>, e: GroupExpense, ids: seq<string>)
    requires Distinct(ids)
    ensures TotalPaid(expenses + [e], ids) == TotalPaid(expenses, ids) + (if e.payerId in ids then e.amount else 0.0)
  {
    assert (expenses + [e])[..|expenses|] == expenses;
    if |ids| > 0 {
      var prefix, last := ids[..|ids| - 1], ids[|ids| - 1];
      assert ids == prefix + [last];
      assert last !in prefix;
      TotalPaidSnoc(expenses, e, prefix);
    }
  }

  lemma {:induction false} TotalShareSnoc(splits: seq<GroupExpenseSplit>, x: GroupExpenseSplit, ids: seq<string>)
    requires Distinct(ids)
    ensures TotalShare(splits + [x], ids) == TotalShare(splits, ids) + (if x.userId in ids then x.shareAmount else 0.0)
  {
    assert (splits + [x])[..|splits|] == splits;
    if |ids| > 0 {
      var prefix, last := ids[..|ids| - 1], ids[|ids| - 1];
      assert ids == prefix + [last];
      assert last !in prefix;
      TotalShareSnoc(splits, x, prefix);
    }
  }

  lemma {:induction false} TotalOwedSnoc(expenses: seq<GroupExpense>, e: GroupExpense, ids: seq<string>)
    ensures TotalOwed(expenses + [e], ids) == TotalOwed(expenses, ids) + TotalShare(e.splits, ids)
  {
    assert (expenses + [e])[..|expenses|] == expenses;
    if |ids| > 0 {
      TotalOwedSnoc(expenses, e, ids[..|ids| - 1]);
    }
  }

  /** When every split names one of `ids`, their shares add up to the split total. */
  lemma {:induction false} TotalShareAll(splits: seq<GroupExpenseSplit>, ids: seq<string>)
    requires Distinct(ids)
    requires forall x :: x in splits ==> x.userId in ids
    ensures TotalShare(splits, ids) == SplitTotal(splits)
  {
    if |splits| == 0 {
      TotalShareNone(ids);
    } else {
      var prefix, x := splits[..|splits| - 1], splits[|splits| - 1];
      assert splits == prefix + [x];
      TotalShareAll(prefix, ids);
      TotalShareSnoc(prefix, x, ids);
    }
  }

  lemma {:induction false} TotalShareNone(ids: seq<string>)
    ensures TotalShare([], ids) == 0.0
  {
    if |ids| > 0 {
      TotalShareNone(ids[..|ids| - 1]);
    }
  }

  lemma {:induction false} TotalsNone(ids: seq<string>)
    ensures TotalPaid([], ids) == 0.0 && TotalOwed([], ids) == 0.0
  {
    if |ids| > 0 {
      TotalsNone(ids[..|ids| - 1]);
    }
  }

  /** When every payer and every split user is one of the distinct `ids`, the
      `paid` totals add up to the expense total and the `owed` totals to the
      split total. */
  lemma {:induction false} TotalsAll(expenses: seq<GroupExpense>, ids: seq<string>)
    requires Distinct(ids)
    requires forall e :: e in expenses ==> e.payerId in ids && forall x :: x in e.splits ==> x.userId in ids
    ensures TotalPaid(expenses, ids) == ExpenseTotal(expenses)
    ensures TotalOwed(expenses, ids) == ChargedTotal(expenses)
  {
    if |expenses| == 0 {
      TotalsNone(ids);
    } else {
      var prefix, e := expenses[..|expenses| - 1], expenses[|expenses| - 1];
      assert expenses == prefix + [e];
      TotalsAll(prefix, ids);
      TotalPaidSnoc(prefix, e, ids);
      TotalOwedSnoc(prefix, e, ids);
      TotalShareAll(e.splits, ids);
    }
  }

  /** The balances of records for `ids` add up to what they paid minus what they owe. */
  lemma {:induction false} BalanceTotalOfRecords(expenses: seq<GroupExpense>, ids: seq<string>, r: seq<MemberBalance>)
    requires |r| == |ids|
    requires forall k :: 0 <= k < |r| ==>
      r[k].balance == PaidBy(expenses, ids[k]) - OwedBy(expenses, ids[k])
    ensures BalanceTotal(r) == TotalPaid(expenses, ids) - TotalOwed(expenses, ids)
  {
    if |r| > 0 {
      BalanceTotalOfRecords(expenses, ids[..|ids| - 1], r[..|r| - 1]);
    }
  }

  /** A group whose payers and split users are all on the roster, and whose
      splits each add up to their expense, has balances that sum to zero. */
  lemma BalancesSumToZero(expenses: seq<GroupExpense>, members: seq<GroupMember>, r: seq<MemberBalance>)
    requires forall e :: e in expenses ==>
      e.payerId in RosterIds(members) && forall x :: x in e.splits ==> x.userId in RosterIds(members)
    requires forall e :: e in expenses ==> SplitTotal(e.splits) == e.amount
    requires |r| == |RosterIds(members)|
    requires forall k :: 0 <= k < |r| ==> r[k].userId == RosterIds(members)[k]
    requires forall k :: 0 <= k < |r| ==> r[k].paid == PaidBy(expenses, r[k].userId)
    requires forall k :: 0 <= k < |r| ==> r[k].owed == OwedBy(expenses, r[k].userId)
    requires forall k :: 0 <= k < |r| ==> r[k].balance == r[k].paid - r[k].owed
    ensures BalanceTotal(r) == 0.0
  {
    var ids := RosterIds(members);
    TotalsAll(expenses, ids);
    BalanceTotalOfRecords(expenses, ids, r);
    ChargedIsExpenseTotal(expenses);
  }

  lemma {:induction false} ChargedIsExpenseTotal(expenses: seq<GroupExpense>)
    requires forall e :: e in expenses ==> SplitTotal(e.splits) == e.amount
    ensures ChargedTotal(expenses) == ExpenseTotal(expenses)
  {
    if |expenses| > 0 {
      var prefix := expenses[..|expenses| - 1];
      assert forall e :: e in prefix ==> e in expenses;
      assert expenses[|expenses| - 1] in expenses;
      ChargedIsExpenseTotal(prefix);
    }
  }

  // ---------------------------------------------------------------------------
  // calculateDebts
  // ---------------------------------------------------------------------------

  /** Below this, a transfer is not worth emitting and a balance counts as settled. */
  const DustThreshold: real := 0.01

  function Abs(x: real): real { if x < 0.0 then -x else x }

  function Min(x: real, y: real): real { if x <= y then x else y }

  /** `Math.round(x * 100) / 100`: `Math.round` rounds halves upwards. */
  function RoundCents(x: real): (r: real)
    ensures x - 0.005 < r <= x + 0.005
    ensures (r * 100.0).Floor as real == r * 100.0
    ensures x > DustThreshold ==> r >= DustThreshold
  {
    ((x * 100.0 + 0.5).Floor as real) / 100.0
  }

  predicate IsDebtor(b: MemberBalance) { b.balance < 0.0 }

  predicate IsCreditor(b: MemberBalance) { b.balance > 0.0 }

  /** The members who owe money, in input order. */
  function Debtors(balances: seq<MemberBalance>): (r: seq<MemberBalance>)
    ensures |r| <= |balances|
    ensures forall x :: x in r <==> x in balances && x.balance < 0.0
  {
    Filter(balances, IsDebtor)
  }

  /** The members who are owed money, in input order. */
  function Creditors(balances: seq<MemberBalance>): (r: seq<MemberBalance>)
    ensures |r| <= |balances|
    ensures forall x :: x in r <==> x in balances && x.balance > 0.0
  {
    Filter(balances, IsCreditor)
  }

  /** The two comparators the settlement sorts with. */
  datatype Direction = Ascending | Descending

  predicate InOrder(dir: Direction, x: MemberBalance, y: MemberBalance)
  {
    match dir
    case Ascending => x.balance <= y.balance
    case Descending => x.balance >= y.balance
  }

  predicate SortedBy(s: seq<MemberBalance>, dir: Direction)
  {
    forall a, b :: 0 <= a < b < |s| ==> InOrder(dir, s[a], s[b])
  }

  /** Puts `x` in front of the first element it may precede. */
  function Insert(x: MemberBalance, s: seq<MemberBalance>, dir: Direction): (r: seq<MemberBalance>)
    requires SortedBy(s, dir)
    ensures |r| == |s| + 1
    ensures multiset(r) == multiset(s) + multiset{x}
    ensures SortedBy(r, dir)
  {
    if |s| == 0 || InOrder(dir, x, s[0]) then [x] + s
    else
      var rest := Insert(x, s[1..], dir);
      assert s == [s[0]] + s[1..];
      InsertBehindHead(x, s, rest, dir);
      [s[0]] + rest
  }

  /** When `x` goes behind the head of `s`, the head still comes first. */
  lemma InsertBehindHead(x: MemberBalance, s: seq<MemberBalance>, rest: seq<MemberBalance>, dir: Direction)
    requires SortedBy(s, dir) && |s| > 0 && !InOrder(dir, x, s[0])
    requires SortedBy(rest, dir) && multiset(rest) == multiset(s[1..]) + multiset{x}
    ensures SortedBy([s[0]] + rest, dir)
  {
    var r := [s[0]] + rest;
    forall a, b | 0 <= a < b < |r| ensures InOrder(dir, r[a], r[b]) {
      if a == 0 {
        var y := rest[b - 1];
        assert y in multiset(rest);
        if y != x {
          assert y in multiset(s[1..]);
          var c :| 0 <= c < |s[1..]| && s[1..][c] == y;
          assert s[c + 1] == y;
        }
      } else {
        assert r[a] == rest[a - 1] && r[b] == rest[b - 1];
      }
    }
  }

  /** `Array.prototype.sort` with a balance comparator: a stable sort, here an
      insertion sort that puts an element before the equal ones after it. */
  function SortByBalance(s: seq<MemberBalance>, dir: Direction): (r: seq<MemberBalance>)
    ensures |r| == |s|
    ensures multiset(r) == multiset(s)
    ensures SortedBy(r, dir)
  {
    if |s| == 0 then []
    else
      assert s == [s[0]] + s[1..];
      Insert(s[0], SortByBalance(s[1..], dir), dir)
  }

  /** The test "has balance `v`". */
  function BalanceIs(v: real): MemberBalance -> bool
  {
    (x: MemberBalance) => x.balance == v
  }

  /** Inserting is stable: `x` goes in front of the entries with its own balance
      and the order among the others is kept. */
  lemma {:induction false} InsertIsStable(x: MemberBalance, s: seq<MemberBalance>, dir: Direction, v: real)
    requires SortedBy(s, dir)
    ensures Filter(Insert(x, s, dir), BalanceIs(v)) == (if x.balance == v then [x] else []) + Filter(s, BalanceIs(v))
  {
    if |s| == 0 || InOrder(dir, x, s[0]) {
      FilterCons(x, s, BalanceIs(v));
      assert [] + Filter(s, BalanceIs(v)) == Filter(s, BalanceIs(v));
    } else {
      var head, tail := s[0], s[1..];
      assert s == [head] + tail;
      InsertIsStable(x, tail, dir, v);
      FilterCons(head, Insert(x, tail, dir), BalanceIs(v));
      FilterCons(head, tail, BalanceIs(v));
      assert x.balance != head.balance;
      assert [] + Filter(tail, BalanceIs(v)) == Filter(tail, BalanceIs(v));
    }
  }

  /** The sort is stable: the entries with any one balance come out in the order
      they went in. */
  lemma {:induction false} SortIsStable(s: seq<MemberBalance>, dir: Direction, v: real)
    ensures Filter(SortByBalance(s, dir), BalanceIs(v)) == Filter(s, BalanceIs(v))
  {
    if |s| > 0 {
      assert s == [s[0]] + s[1..];
      SortIsStable(s[1..], dir, v);
      InsertIsStable(s[0], SortByBalance(s[1..], dir), dir, v);
      FilterCons(s[0], s[1..], BalanceIs(v));
      assert [] + Filter(s[1..], BalanceIs(v)) == Filter(s[1..], BalanceIs(v));
    }
  }

  /** The debtors, largest debt first. */
  function SortedDebtors(balances: seq<MemberBalance>): (ds: seq<MemberBalance>)
    ensures SortedBy(ds, Ascending)
    ensures forall x :: x in ds <==> x in balances && x.balance < 0.0
    ensures |ds| == |Debtors(balances)|
    ensures multiset(ds) == multiset(Debtors(balances))
  {
    var ds := SortByBalance(Debtors(balances), Ascending);
    assert forall x :: x in ds <==> x in multiset(Debtors(balances));
    ds
  }

  /** The creditors, largest credit first. */
  function SortedCreditors(balances: seq<MemberBalance>): (cs: seq<MemberBalance>)
    ensures SortedBy(cs, Descending)
    ensures forall x :: x in cs <==> x in balances && x.balance > 0.0
    ensures |cs| == |Creditors(balances)|
    ensures multiset(cs) == multiset(Creditors(balances))
  {
    var cs := SortByBalance(Creditors(balances), Descending);
    assert forall x :: x in cs <==> x in multiset(Creditors(balances));
    cs
  }

  /** Debtors who owe the same amount are settled in the order the balances
      list them. */
  lemma SortedDebtorsKeepTies(balances: seq<MemberBalance>, v: real)
    requires v < 0.0
    ensures Filter(SortedDebtors(balances), BalanceIs(v)) == Filter(balances, BalanceIs(v))
  {
    SortIsStable(Debtors(balances), Ascending, v);
    FilterNarrower(balances, IsDebtor, BalanceIs(v));
  }

  /** Creditors who are owed the same amount are settled in the order the
      balances list them. */
  lemma SortedCreditorsKeepTies(balances: seq<MemberBalance>, v: real)
    requires v > 0.0
    ensures Filter(SortedCreditors(balances), BalanceIs(v)) == Filter(balances, BalanceIs(v))
  {
    SortIsStable(Creditors(balances), Descending, v);
    FilterNarrower(balances, IsCreditor, BalanceIs(v));
  }

  /** One iteration of the settlement loop: debtor cursor, creditor cursor and
      the amount moved (before the dust filter and the rounding). */
  datatype Transfer = Transfer(debtor: nat, creditor: nat, amount: real)

  /** What debtor `k` has paid over `steps`. */
  function Paid(steps: seq<Transfer>, k: nat): real
  {
    if |steps| == 0 then 0.0
    else
      var t := steps[|steps| - 1];
      Paid(steps[..|steps| - 1], k) + (if t.debtor == k then t.amount else 0.0)
  }

  /** What creditor `k` has received over `steps`. */
  function Received(steps: seq<Transfer>, k: nat): real
  {
    if |steps| == 0 then 0.0
    else
      var t := steps[|steps| - 1];
      Received(steps[..|steps| - 1], k) + (if t.creditor == k then t.amount else 0.0)
  }

  /** What debtor `k` still owes after `steps`: the magnitude of its running balance. */
  function RemainingDebt(ds: seq<MemberBalance>, steps: seq<Transfer>, k: nat): real
    requires k < |ds|
  {
    -ds[k].balance - Paid(steps, k)
  }

  /** What creditor `k` is still owed after `steps`. */
  function RemainingCredit(cs: seq<MemberBalance>, steps: seq<Transfer>, k: nat): real
    requires k < |cs|
  {
    cs[k].balance - Received(steps, k)
  }

  /** Every step names a debtor of `ds` and a creditor of `cs`. */
  predicate InRange(ds: seq<MemberBalance>, cs: seq<MemberBalance>, steps: seq<Transfer>)
  {
    forall a :: 0 <= a < |steps| ==> steps[a].debtor < |ds| && steps[a].creditor < |cs|
  }

  /** Where the debtor cursor stands after step `a`: one further on exactly when
      that step left its debtor with less than the dust threshold. */
  ghost function NextDebtor(ds: seq<MemberBalance>, steps: seq<Transfer>, a: nat): nat
    requires a < |steps| && steps[a].debtor < |ds|
  {
    steps[a].debtor + (if RemainingDebt(ds, steps[..a + 1], steps[a].debtor) < DustThreshold then 1 else 0)
  }

  /** Where the creditor cursor stands after step `a`: one further on exactly
      when that step left its creditor with less than the dust threshold. */
  ghost function NextCreditor(cs: seq<MemberBalance>, steps: seq<Transfer>, a: nat): nat
    requires a < |steps| && steps[a].creditor < |cs|
  {
    steps[a].creditor + (if RemainingCredit(cs, steps[..a + 1], steps[a].creditor) < DustThreshold then 1 else 0)
  }

  /** The debts the loop pushes: one per step above the dust threshold, rounded to cents. */
  function Emitted(ds: seq<MemberBalance>, cs: seq<MemberBalance>, steps: seq<Transfer>): (r: seq<Debt>)
    requires InRange(ds, cs, steps)
    ensures |r| <= |steps|
    ensures forall d :: d in r ==>
      d.amount >= DustThreshold &&
      (exists x :: x in ds && x.profile == d.from) &&
      (exists y :: y in cs && y.profile == d.to)
  {
    if |steps| == 0 then []
    else
      var t := steps[|steps| - 1];
      var prev := Emitted(ds, cs, steps[..|steps| - 1]);
      if t.amount > DustThreshold then
        assert ds[t.debtor] in ds && cs[t.creditor] in cs;
        prev + [Debt(ds[t.debtor].profile, cs[t.creditor].profile, RoundCents(t.amount))]
      else prev
  }

  /** The cursors never move back, and every step is at a new cursor pair. */
  ghost predicate CursorOrder(steps: seq<Transfer>)
  {
    forall a, b :: 0 <= a < b < |steps| ==>
      steps[a].debtor <= steps[b].debtor && steps[a].creditor <= steps[b].creditor &&
      (steps[a].debtor < steps[b].debtor || steps[a].creditor < steps[b].creditor)
  }

  /** Each step moves the smaller of the current debtor's remaining debt and the
      current creditor's remaining credit. */
  ghost predicate GreedyAmounts(ds: seq<MemberBalance>, cs: seq<MemberBalance>, steps: seq<Transfer>)
  {
    forall a :: 0 <= a < |steps| ==>
      steps[a].debtor < |ds| && steps[a].creditor < |cs| &&
      steps[a].amount ==
        Min(RemainingDebt(ds, steps[..a], steps[a].debtor), RemainingCredit(cs, steps[..a], steps[a].creditor))
  }

  /** No debtor pays more than it owed and no creditor receives more than it was owed. */
  ghost predicate NeverOvershoots(ds: seq<MemberBalance>, cs: seq<MemberBalance>, steps: seq<Transfer>)
  {
    (forall k :: 0 <= k < |ds| ==> RemainingDebt(ds, steps, k) >= 0.0) &&
    (forall k :: 0 <= k < |cs| ==> RemainingCredit(cs, steps, k) >= 0.0)
  }

  /** Either every debtor or every creditor is left with less than the dust threshold. */
  ghost predicate OneSideSettled(ds: seq<MemberBalance>, cs: seq<MemberBalance>, steps: seq<Transfer>)
  {
    (forall k :: 0 <= k < |ds| ==> RemainingDebt(ds, steps, k) < DustThreshold) ||
    (forall k :: 0 <= k < |cs| ==> RemainingCredit(cs, steps, k) < DustThreshold)
  }

  /** `p` belongs to some member who owes money. */
  ghost predicate IsDebtorProfile(balances: seq<MemberBalance>, p: Profile)
  {
    exists x :: x in balances && x.balance < 0.0 && x.profile == p
  }

  /** `p` belongs to some member who is owed money. */
  ghost predicate IsCreditorProfile(balances: seq<MemberBalance>, p: Profile)
  {
    exists x :: x in balances && x.balance > 0.0 && x.profile == p
  }

  /** No two different entries share a profile. */
  ghost predicate ProfilesIdentifyEntries(balances: seq<MemberBalance>)
  {
    forall x, y :: x in balances && y in balances && x.profile == y.profile ==> x == y
  }

  /** Each step after the first is taken where the previous one left the cursors. */
  ghost predicate CursorsAdvance(ds: seq<MemberBalance>, cs: seq<MemberBalance>, steps: seq<Transfer>)
    requires InRange(ds, cs, steps)
  {
    forall a :: 0 <= a < |steps| - 1 ==>
      steps[a + 1].debtor == NextDebtor(ds, steps, a) && steps[a + 1].creditor == NextCreditor(cs, steps, a)
  }

  /** The last step leaves a cursor past its end, so the loop stops there. */
  ghost predicate EndsSettled(ds: seq<MemberBalance>, cs: seq<MemberBalance>, steps: seq<Transfer>)
    requires InRange(ds, cs, steps)
  {
    |steps| > 0 ==>
      NextDebtor(ds, steps, |steps| - 1) == |ds| || NextCreditor(cs, steps, |steps| - 1) == |cs|
  }

  /** Every step moves a positive amount. */
  ghost predicate PositiveSteps(steps: seq<Transfer>)
  {
    forall a :: 0 <= a < |steps| ==> steps[a].amount > 0.0
  }

  /** `steps` is a complete run of the greedy loop over `ds` and `cs`: it starts
      at both heads (or does not start, when a side is empty), takes each step
      where the previous one left the cursors, moves the greedy amount, and
      stops when a cursor runs off its end. */
  ghost predicate GreedySettlement(ds: seq<MemberBalance>, cs: seq<MemberBalance>, steps: seq<Transfer>)
  {
    InRange(ds, cs, steps) &&
    (|steps| == 0 <==> |ds| == 0 || |cs| == 0) &&
    (|steps| > 0 ==> steps[0].debtor == 0 && steps[0].creditor == 0) &&
    CursorsAdvance(ds, cs, steps) &&
    GreedyAmounts(ds, cs, steps) &&
    EndsSettled(ds, cs, steps)
  }

  /** The settlement loop's state: cursors `i` and `j` after `steps`. */
  ghost predicate Settling(ds: seq<MemberBalance>, cs: seq<MemberBalance>, i: nat, j: nat, steps: seq<Transfer>)
  {
    CursorsOk(ds, cs, i, j, steps) && AmountsOk(ds, cs, i, j, steps)
  }

  /** Every step so far was taken at a new cursor pair below `(i, j)`, at most
      one per cursor move. */
  ghost predicate CursorsOk(ds: seq<MemberBalance>, cs: seq<MemberBalance>, i: nat, j: nat, steps: seq<Transfer>)
  {
    i <= |ds| && j <= |cs| &&
    InRange(ds, cs, steps) &&
    (forall a :: 0 <= a < |steps| ==>
      steps[a].debtor <= i && steps[a].creditor <= j && (steps[a].debtor < i || steps[a].creditor < j)) &&
    CursorOrder(steps) &&
    (|steps| > 0 ==> steps[0].debtor == 0 && steps[0].creditor == 0) &&
    (|steps| == 0 ==> i == 0 && j == 0) &&
    |steps| <= i + j &&
    (|steps| > 0 ==> |steps| <= steps[|steps| - 1].debtor + steps[|steps| - 1].creditor + 1) &&
    CursorsAdvance(ds, cs, steps) &&
    (|steps| > 0 ==> i == NextDebtor(ds, steps, |steps| - 1) && j == NextCreditor(cs, steps, |steps| - 1))
  }

  /** The steps so far were greedy; debtors before `i` and creditors before `j`
      are settled to dust, and the rest still hold a positive amount. */
  ghost predicate AmountsOk(ds: seq<MemberBalance>, cs: seq<MemberBalance>, i: nat, j: nat, steps: seq<Transfer>)
  {
    GreedyAmounts(ds, cs, steps) &&
    PositiveSteps(steps) &&
    NeverOvershoots(ds, cs, steps) &&
    (forall k :: i <= k < |ds| ==> RemainingDebt(ds, steps, k) > 0.0) &&
    (forall k :: j <= k < |cs| ==> RemainingCredit(cs, steps, k) > 0.0) &&
    (forall k :: 0 <= k < i && k < |ds| ==> RemainingDebt(ds, steps, k) < DustThreshold) &&
    (forall k :: 0 <= k < j && k < |cs| ==> RemainingCredit(cs, steps, k) < DustThreshold)
  }

  /** The working copy of the debtors: each balance run down by what it has paid. */
  ghost predicate RunningDebtors(ds: seq<MemberBalance>, steps: seq<Transfer>, run: seq<MemberBalance>)
  {
    |run| == |ds| &&
    forall k :: 0 <= k < |ds| ==> run[k] == ds[k].(balance := ds[k].balance + Paid(steps, k))
  }

  /** The working copy of the creditors: each balance run down by what it has received. */
  ghost predicate RunningCreditors(cs: seq<MemberBalance>, steps: seq<Transfer>, run: seq<MemberBalance>)
  {
    |run| == |cs| &&
    forall k :: 0 <= k < |cs| ==> run[k] == cs[k].(balance := cs[k].balance - Received(steps, k))
  }

  /** A new step adds its amount to its own debtor's payments and to no one else's. */
  lemma PaidSnoc(steps: seq<Transfer>, t: Transfer)
    ensures forall k :: Paid(steps + [t], k) == Paid(steps, k) + (if t.debtor == k then t.amount else 0.0)
  {
    assert (steps + [t])[..|steps|] == steps;
  }

  /** A new step adds its amount to its own creditor's receipts and to no one else's. */
  lemma ReceivedSnoc(steps: seq<Transfer>, t: Transfer)
    ensures forall k :: Received(steps + [t], k) == Received(steps, k) + (if t.creditor == k then t.amount else 0.0)
  {
    assert (steps + [t])[..|steps|] == steps;
  }

  /** A new step emits one more debt exactly when it moves more than dust. */
  lemma EmittedSnoc(ds: seq<MemberBalance>, cs: seq<MemberBalance>, steps: seq<Transfer>, t: Transfer)
    requires InRange(ds, cs, steps) && t.debtor < |ds| && t.creditor < |cs|
    ensures InRange(ds, cs, steps + [t])
    ensures Emitted(ds, cs, steps + [t]) ==
      Emitted(ds, cs, steps) +
      (if t.amount > DustThreshold
       then [Debt(ds[t.debtor].profile, cs[t.creditor].profile, RoundCents(t.amount))]
       else [])
  {
    assert (steps + [t])[..|steps|] == steps;
  }

  /** Moving `t` from debtor `i` to creditor `j` updates exactly those two entries
      of the working copies. */
  lemma RunningStep(ds: seq<MemberBalance>, cs: seq<MemberBalance>, steps: seq<Transfer>,
                    dRun: seq<MemberBalance>, cRun: seq<MemberBalance>, i: nat, j: nat, t: real)
    requires RunningDebtors(ds, steps, dRun) && RunningCreditors(cs, steps, cRun)
    requires i < |ds| && j < |cs|
    ensures RunningDebtors(ds, steps + [Transfer(i, j, t)], dRun[i := dRun[i].(balance := dRun[i].balance + t)])
    ensures RunningCreditors(cs, steps + [Transfer(i, j, t)], cRun[j := cRun[j].(balance := cRun[j].balance - t)])
  {
    PaidSnoc(steps, Transfer(i, j, t));
    ReceivedSnoc(steps, Transfer(i, j, t));
  }

  /** The greedy amounts of earlier steps do not change when a step is appended. */
  lemma GreedySnoc(ds: seq<MemberBalance>, cs: seq<MemberBalance>, steps: seq<Transfer>, t: Transfer)
    requires GreedyAmounts(ds, cs, steps) && t.debtor < |ds| && t.creditor < |cs|
    requires t.amount == Min(RemainingDebt(ds, steps, t.debtor), RemainingCredit(cs, steps, t.creditor))
    ensures GreedyAmounts(ds, cs, steps + [t])
  {
    var s := steps + [t];
    forall a | 0 <= a < |s|
      ensures s[a].amount == Min(RemainingDebt(ds, s[..a], s[a].debtor), RemainingCredit(cs, s[..a], s[a].creditor))
    {
      if a < |steps| {
        assert s[..a] == steps[..a];
      } else {
        assert s[..a] == steps;
      }
    }
  }

  /** Appending a step does not change where the earlier steps moved the cursors. */
  lemma NextSnoc(ds: seq<MemberBalance>, cs: seq<MemberBalance>, steps: seq<Transfer>, t: Transfer, a: nat)
    requires InRange(ds, cs, steps) && a < |steps| && t.debtor < |ds| && t.creditor < |cs|
    ensures InRange(ds, cs, steps + [t])
    ensures NextDebtor(ds, steps + [t], a) == NextDebtor(ds, steps, a)
    ensures NextCreditor(cs, steps + [t], a) == NextCreditor(cs, steps, a)
  {
    assert (steps + [t])[..a + 1] == steps[..a + 1];
  }

  /** A step at the cursors the previous step left, followed by the source's
      cursor moves, extends the chain of cursor advances. */
  lemma AdvanceStep(ds: seq<MemberBalance>, cs: seq<MemberBalance>, i: nat, j: nat, steps: seq<Transfer>,
                    t: real, i2: nat, j2: nat)
    requires InRange(ds, cs, steps) && i < |ds| && j < |cs|
    requires CursorsAdvance(ds, cs, steps)
    requires |steps| > 0 ==> i == NextDebtor(ds, steps, |steps| - 1) && j == NextCreditor(cs, steps, |steps| - 1)
    requires i2 == if RemainingDebt(ds, steps + [Transfer(i, j, t)], i) < DustThreshold then i + 1 else i
    requires j2 == if RemainingCredit(cs, steps + [Transfer(i, j, t)], j) < DustThreshold then j + 1 else j
    ensures InRange(ds, cs, steps + [Transfer(i, j, t)])
    ensures CursorsAdvance(ds, cs, steps + [Transfer(i, j, t)])
    ensures i2 == NextDebtor(ds, steps + [Transfer(i, j, t)], |steps|)
    ensures j2 == NextCreditor(cs, steps + [Transfer(i, j, t)], |steps|)
  {
    var s := steps + [Transfer(i, j, t)];
    assert s[..|steps| + 1] == s;
    forall a | 0 <= a < |s| - 1
      ensures s[a + 1].debtor == NextDebtor(ds, s, a) && s[a + 1].creditor == NextCreditor(cs, s, a)
    {
      NextSnoc(ds, cs, steps, Transfer(i, j, t), a);
    }
  }

  /** A step at the cursors, followed by the source's cursor moves (at least one
      of which happens), keeps the cursor facts. */
  lemma CursorStep(ds: seq<MemberBalance>, cs: seq<MemberBalance>, i: nat, j: nat, steps: seq<Transfer>,
                   t: real, i2: nat, j2: nat)
    requires CursorsOk(ds, cs, i, j, steps) && i < |ds| && j < |cs|
    requires i2 == if RemainingDebt(ds, steps + [Transfer(i, j, t)], i) < DustThreshold then i + 1 else i
    requires j2 == if RemainingCredit(cs, steps + [Transfer(i, j, t)], j) < DustThreshold then j + 1 else j
    requires i < i2 || j < j2
    ensures CursorsOk(ds, cs, i2, j2, steps + [Transfer(i, j, t)])
  {
    var s := steps + [Transfer(i, j, t)];
    AdvanceStep(ds, cs, i, j, steps, t, i2, j2);
    assert CursorOrder(s) by {
      forall a, b | 0 <= a < b < |s|
        ensures s[a].debtor <= s[b].debtor && s[a].creditor <= s[b].creditor
        ensures s[a].debtor < s[b].debtor || s[a].creditor < s[b].creditor
      {
        if b < |steps| {
          assert s[a] == steps[a] && s[b] == steps[b];
        } else {
          assert s[a] == steps[a];
        }
      }
    }
  }

  /** A greedy step keeps the amount facts, and settles its debtor or its creditor. */
  lemma AmountStep(ds: seq<MemberBalance>, cs: seq<MemberBalance>, i: nat, j: nat, steps: seq<Transfer>,
                   t: real, i2: nat, j2: nat)
    requires AmountsOk(ds, cs, i, j, steps) && i < |ds| && j < |cs|
    requires t == Min(RemainingDebt(ds, steps, i), RemainingCredit(cs, steps, j))
    requires i2 == if RemainingDebt(ds, steps + [Transfer(i, j, t)], i) < DustThreshold then i + 1 else i
    requires j2 == if RemainingCredit(cs, steps + [Transfer(i, j, t)], j) < DustThreshold then j + 1 else j
    ensures AmountsOk(ds, cs, i2, j2, steps + [Transfer(i, j, t)])
    ensures i < i2 || j < j2
  {
    var s := steps + [Transfer(i, j, t)];
    PaidSnoc(steps, Transfer(i, j, t));
    ReceivedSnoc(steps, Transfer(i, j, t));
    GreedySnoc(ds, cs, steps, Transfer(i, j, t));
    assert RemainingDebt(ds, steps, i) > 0.0 && RemainingCredit(cs, steps, j) > 0.0;
    assert PositiveSteps(s) by {
      forall a | 0 <= a < |s| ensures s[a].amount > 0.0 {
        if a < |steps| {
          assert s[a] == steps[a];
        }
      }
    }
    forall k | 0 <= k < |ds|
      ensures RemainingDebt(ds, s, k) == RemainingDebt(ds, steps, k) - (if k == i then t else 0.0)
    {
    }
    forall k | 0 <= k < |cs|
      ensures RemainingCredit(cs, s, k) == RemainingCredit(cs, steps, k) - (if k == j then t else 0.0)
    {
    }
  }

  /** One iteration of the settlement loop keeps `Settling` and moves a cursor. */
  lemma SettleStep(ds: seq<MemberBalance>, cs: seq<MemberBalance>, i: nat, j: nat, steps: seq<Transfer>,
                   t: real, i2: nat, j2: nat)
    requires Settling(ds, cs, i, j, steps) && i < |ds| && j < |cs|
    requires t == Min(RemainingDebt(ds, steps, i), RemainingCredit(cs, steps, j))
    requires i2 == if RemainingDebt(ds, steps + [Transfer(i, j, t)], i) < DustThreshold then i + 1 else i
    requires j2 == if RemainingCredit(cs, steps + [Transfer(i, j, t)], j) < DustThreshold then j + 1 else j
    ensures Settling(ds, cs, i2, j2, steps + [Transfer(i, j, t)])
    ensures i < i2 || j < j2
  {
    AmountStep(ds, cs, i, j, steps, t, i2, j2);
    CursorStep(ds, cs, i, j, steps, t, i2, j2);
  }

  /** Every entry of `ds` owes money. */
  predicate AllOwe(ds: seq<MemberBalance>)
  {
    forall k :: 0 <= k < |ds| ==> ds[k].balance < 0.0
  }

  /** Every entry of `cs` is owed money. */
  predicate AllOwed(cs: seq<MemberBalance>)
  {
    forall k :: 0 <= k < |cs| ==> cs[k].balance > 0.0
  }

  /** Before the first iteration: both cursors at the start, nothing moved. */
  lemma SettlingStart(ds: seq<MemberBalance>, cs: seq<MemberBalance>)
    requires AllOwe(ds) && AllOwed(cs)
    ensures Settling(ds, cs, 0, 0, [])
  {
  }

  /** When a cursor has run off its end, the steps so far are the whole settlement. */
  lemma SettlingDone(ds: seq<MemberBalance>, cs: seq<MemberBalance>, i: nat, j: nat, steps: seq<Transfer>)
    requires Settling(ds, cs, i, j, steps)
    requires i == |ds| || j == |cs|
    ensures |steps| == 0 <==> |ds| == 0 || |cs| == 0
    ensures |steps| == 0 || |steps| < |ds| + |cs|
    ensures OneSideSettled(ds, cs, steps)
    ensures EndsSettled(ds, cs, steps)
    ensures GreedySettlement(ds, cs, steps)
  {
    if |steps| > 0 {
      var last := steps[|steps| - 1];
      assert last.debtor < |ds| && last.creditor < |cs|;
    }
  }

  /** Each step of a complete greedy run is a function of the steps before it:
      where the cursors stand and how much is moved. */
  lemma StepIsDetermined(ds: seq<MemberBalance>, cs: seq<MemberBalance>, s: seq<Transfer>, a: nat)
    requires GreedySettlement(ds, cs, s) && a < |s|
    ensures a == 0 ==> s[a].debtor == 0 && s[a].creditor == 0
    ensures a > 0 ==> (InRange(ds, cs, s[..a]) &&
      s[a].debtor == NextDebtor(ds, s[..a], a - 1) && s[a].creditor == NextCreditor(cs, s[..a], a - 1))
    ensures s[a].debtor < |ds| && s[a].creditor < |cs|
    ensures s[a].amount == Min(RemainingDebt(ds, s[..a], s[a].debtor), RemainingCredit(cs, s[..a], s[a].creditor))
  {
    if a > 0 {
      assert s[..a][..a - 1 + 1] == s[..a] && s[..a][a - 1] == s[a - 1];
      assert InRange(ds, cs, s[..a]);
      assert s[a - 1 + 1].debtor == NextDebtor(ds, s, a - 1) && s[a - 1 + 1].creditor == NextCreditor(cs, s, a - 1);
      assert NextDebtor(ds, s, a - 1) == NextDebtor(ds, s[..a], a - 1);
      assert NextCreditor(cs, s, a - 1) == NextCreditor(cs, s[..a], a - 1);
    }
  }

  /** Two complete greedy runs over the same debtors and creditors agree on
      every step they both took. */
  lemma {:induction false} SettlementPrefixesAgree(ds: seq<MemberBalance>, cs: seq<MemberBalance>,
                                                   s1: seq<Transfer>, s2: seq<Transfer>, n: nat)
    requires GreedySettlement(ds, cs, s1) && GreedySettlement(ds, cs, s2)
    requires n <= |s1| && n <= |s2|
    ensures s1[..n] == s2[..n]
  {
    if n > 0 {
      SettlementPrefixesAgree(ds, cs, s1, s2, n - 1);
      StepsAgree(ds, cs, s1, s2, n - 1);
      PrefixSnoc(s1, n);
      PrefixSnoc(s2, n);
    }
  }

  lemma PrefixSnoc(s: seq<Transfer>, n: nat)
    requires 0 < n <= |s|
    ensures s[..n] == s[..n - 1] + [s[n - 1]]
  {
  }

  /** Two complete greedy runs that agree before step `a` agree on step `a`. */
  lemma StepsAgree(ds: seq<MemberBalance>, cs: seq<MemberBalance>, s1: seq<Transfer>, s2: seq<Transfer>, a: nat)
    requires GreedySettlement(ds, cs, s1) && GreedySettlement(ds, cs, s2)
    requires a < |s1| && a < |s2| && s1[..a] == s2[..a]
    ensures s1[a] == s2[a]
  {
    StepIsDetermined(ds, cs, s1, a);
    StepIsDetermined(ds, cs, s2, a);
  }

  /** A complete greedy run is never a proper prefix of another: its last step
      left a cursor past its end, where no further step can be taken. */
  lemma SettlementNotExtended(ds: seq<MemberBalance>, cs: seq<MemberBalance>, s1: seq<Transfer>, s2: seq<Transfer>)
    requires GreedySettlement(ds, cs, s1) && GreedySettlement(ds, cs, s2)
    requires |s1| <= |s2|
    ensures |s1| == |s2|
  {
    var n := |s1|;
    if 0 < n < |s2| {
      SettlementPrefixesAgree(ds, cs, s1, s2, n);
      assert s2[..n] == s1;
      StepIsDetermined(ds, cs, s2, n);
      assert false;
    }
  }

  /** The greedy settlement is determined by the debtors and creditors: there
      is only one complete run. */
  lemma SettlementIsUnique(ds: seq<MemberBalance>, cs: seq<MemberBalance>, s1: seq<Transfer>, s2: seq<Transfer>)
    requires GreedySettlement(ds, cs, s1) && GreedySettlement(ds, cs, s2)
    ensures s1 == s2
  {
    if |s1| <= |s2| {
      SettlementNotExtended(ds, cs, s1, s2);
    } else {
      SettlementNotExtended(ds, cs, s2, s1);
    }
    SettlementPrefixesAgree(ds, cs, s1, s2, |s1|);
    assert s1[..|s1|] == s1 && s2[..|s2|] == s2;
  }

  /** Every emitted debt runs from a member who owes to a member who is owed, and
      never from a member to itself when profiles identify members. */
  lemma EmittedBetweenMembers(balances: seq<MemberBalance>, steps: seq<Transfer>)
    requires InRange(SortedDebtors(balances), SortedCreditors(balances), steps)
    ensures forall d :: d in Emitted(SortedDebtors(balances), SortedCreditors(balances), steps) ==>
      d.amount >= DustThreshold && IsDebtorProfile(balances, d.from) && IsCreditorProfile(balances, d.to)
    ensures ProfilesIdentifyEntries(balances) ==>
      forall d :: d in Emitted(SortedDebtors(balances), SortedCreditors(balances), steps) ==> d.from != d.to
  {
    var ds, cs := SortedDebtors(balances), SortedCreditors(balances);
    var r := Emitted(ds, cs, steps);
    forall d | d in r
      ensures IsDebtorProfile(balances, d.from) && IsCreditorProfile(balances, d.to)
      ensures ProfilesIdentifyEntries(balances) ==> d.from != d.to
    {
      var x :| x in ds && x.profile == d.from;
      var y :| y in cs && y.profile == d.to;
      assert x.balance < 0.0 < y.balance;
    }
  }

  /** The transfer in one pass of the settlement loop: move the smaller of the
      current debtor's debt and the current creditor's credit, and push it as a
      debt when it is above the dust threshold. */
  method MoveAmount(ghost ds: seq<MemberBalance>, ghost cs: seq<MemberBalance>,
                  debtors: array<MemberBalance>, creditors: array<MemberBalance>,
                  i: nat, j: nat, ghost steps: seq<Transfer>, debts: seq<Debt>)
    returns (transferAmount: real, debts': seq<Debt>)
    requires debtors != creditors
    requires InRange(ds, cs, steps) && i < |ds| && j < |cs|
    requires RemainingDebt(ds, steps, i) > 0.0 && RemainingCredit(cs, steps, j) > 0.0
    requires RunningDebtors(ds, steps, debtors[..]) && RunningCreditors(cs, steps, creditors[..])
    requires debts == Emitted(ds, cs, steps)
    modifies debtors, creditors
    ensures transferAmount == Min(RemainingDebt(ds, steps, i), RemainingCredit(cs, steps, j))
    ensures RunningDebtors(ds, steps + [Transfer(i, j, transferAmount)], debtors[..])
    ensures RunningCreditors(cs, steps + [Transfer(i, j, transferAmount)], creditors[..])
    ensures Abs(debtors[i].balance) == RemainingDebt(ds, steps + [Transfer(i, j, transferAmount)], i)
    ensures creditors[j].balance == RemainingCredit(cs, steps + [Transfer(i, j, transferAmount)], j)
    ensures debts' == Emitted(ds, cs, steps + [Transfer(i, j, transferAmount)])
  {
    var debtor := debtors[i];
    var creditor := creditors[j];
    var debtAmount := Abs(debtor.balance);
    var creditAmount := creditor.balance;
    transferAmount := Min(debtAmount, creditAmount);
    assert debtAmount == RemainingDebt(ds, steps, i) && creditAmount == RemainingCredit(cs, steps, j);

    ghost var dRun, cRun := debtors[..], creditors[..];
    RunningStep(ds, cs, steps, dRun, cRun, i, j, transferAmount);
    EmittedSnoc(ds, cs, steps, Transfer(i, j, transferAmount));
    debts' := debts;
    if transferAmount > DustThreshold {
      debts' := debts' + [Debt(debtor.profile, creditor.profile, RoundCents(transferAmount))];
    }

    debtors[i] := debtor.(balance := debtor.balance + transferAmount);
    creditors[j] := creditor.(balance := creditor.balance - transferAmount);
    assert debtors[..] == dRun[i := dRun[i].(balance := dRun[i].balance + transferAmount)];
    assert creditors[..] == cRun[j := cRun[j].(balance := cRun[j].balance - transferAmount)];
  }

  /** What the first `n` debtors still owe after `steps`. */
  function ResidualDebt(ds: seq<MemberBalance>, steps: seq<Transfer>, n: nat): real
    requires n <= |ds|
  {
    if n == 0 then 0.0 else ResidualDebt(ds, steps, n - 1) + RemainingDebt(ds, steps, n - 1)
  }

  /** What the first `n` creditors are still owed after `steps`. */
  function ResidualCredit(cs: seq<MemberBalance>, steps: seq<Transfer>, n: nat): real
    requires n <= |cs|
  {
    if n == 0 then 0.0 else ResidualCredit(cs, steps, n - 1) + RemainingCredit(cs, steps, n - 1)
  }

  /** Total amount moved over `steps`. */
  function Moved(steps: seq<Transfer>): real
  {
    if |steps| == 0 then 0.0 else Moved(steps[..|steps| - 1]) + steps[|steps| - 1].amount
  }

  /** What the first `n` debtors have paid. */
  function PaidTotal(steps: seq<Transfer>, n: nat): real
  {
    if n == 0 then 0.0 else PaidTotal(steps, n - 1) + Paid(steps, n - 1)
  }

  /** What the first `n` creditors have received. */
  function ReceivedTotal(steps: seq<Transfer>, n: nat): real
  {
    if n == 0 then 0.0 else ReceivedTotal(steps, n - 1) + Received(steps, n - 1)
  }

  lemma {:induction false} PaidTotalSnoc(steps: seq<Transfer>, t: Transfer, n: nat)
    ensures PaidTotal(steps + [t], n) == PaidTotal(steps, n) + (if t.debtor < n then t.amount else 0.0)
  {
    PaidSnoc(steps, t);
    if n > 0 {
      PaidTotalSnoc(steps, t, n - 1);
    }
  }

  lemma {:induction false} ReceivedTotalSnoc(steps: seq<Transfer>, t: Transfer, n: nat)
    ensures ReceivedTotal(steps + [t], n) == ReceivedTotal(steps, n) + (if t.creditor < n then t.amount else 0.0)
  {
    ReceivedSnoc(steps, t);
    if n > 0 {
      ReceivedTotalSnoc(steps, t, n - 1);
    }
  }

  lemma {:induction false} NothingPaidYet(n: nat)
    ensures PaidTotal([], n) == 0.0 && ReceivedTotal([], n) == 0.0
  {
    if n > 0 {
      NothingPaidYet(n - 1);
    }
  }

  /** Every step is paid by one of the debtors and received by one of the
      creditors, so both sides account for all that moved. */
  lemma {:induction false} BothSidesMoveTheSame(ds: seq<MemberBalance>, cs: seq<MemberBalance>, steps: seq<Transfer>)
    requires InRange(ds, cs, steps)
    ensures PaidTotal(steps, |ds|) == Moved(steps) == ReceivedTotal(steps, |cs|)
  {
    if |steps| == 0 {
      NothingPaidYet(|ds|);
      NothingPaidYet(|cs|);
    } else {
      var prefix, t := steps[..|steps| - 1], steps[|steps| - 1];
      assert steps == prefix + [t];
      assert InRange(ds, cs, prefix);
      BothSidesMoveTheSame(ds, cs, prefix);
      PaidTotalSnoc(prefix, t, |ds|);
      ReceivedTotalSnoc(prefix, t, |cs|);
    }
  }

  lemma {:induction false} ResidualDebtIsUnpaid(ds: seq<MemberBalance>, steps: seq<Transfer>, n: nat)
    requires n <= |ds|
    ensures ResidualDebt(ds, steps, n) == -BalanceTotal(ds[..n]) - PaidTotal(steps, n)
  {
    if n > 0 {
      ResidualDebtIsUnpaid(ds, steps, n - 1);
      assert ds[..n][..n - 1] == ds[..n - 1];
    }
  }

  lemma {:induction false} ResidualCreditIsUnreceived(cs: seq<MemberBalance>, steps: seq<Transfer>, n: nat)
    requires n <= |cs|
    ensures ResidualCredit(cs, steps, n) == BalanceTotal(cs[..n]) - ReceivedTotal(steps, n)
  {
    if n > 0 {
      ResidualCreditIsUnreceived(cs, steps, n - 1);
      assert cs[..n][..n - 1] == cs[..n - 1];
    }
  }

  /** Residuals below the dust threshold add up to at most the threshold per entry. */
  lemma {:induction false} ResidualDebtBound(ds: seq<MemberBalance>, steps: seq<Transfer>, n: nat)
    requires n <= |ds|
    requires forall k :: 0 <= k < |ds| ==> RemainingDebt(ds, steps, k) < DustThreshold
    ensures ResidualDebt(ds, steps, n) <= DustThreshold * n as real
  {
    if n > 0 {
      ResidualDebtBound(ds, steps, n - 1);
    }
  }

  lemma {:induction false} ResidualCreditBound(cs: seq<MemberBalance>, steps: seq<Transfer>, n: nat)
    requires n <= |cs|
    requires forall k :: 0 <= k < |cs| ==> RemainingCredit(cs, steps, k) < DustThreshold
    ensures ResidualCredit(cs, steps, n) <= DustThreshold * n as real
  {
    if n > 0 {
      ResidualCreditBound(cs, steps, n - 1);
    }
  }

  /** Putting the head in front adds its balance. */
  lemma {:induction false} BalanceTotalCons(x: MemberBalance, s: seq<MemberBalance>)
    ensures BalanceTotal([x] + s) == x.balance + BalanceTotal(s)
  {
    if |s| > 0 {
      var prefix := s[..|s| - 1];
      assert ([x] + s)[..|s|] == [x] + prefix;
      BalanceTotalCons(x, prefix);
    }
  }

  lemma {:induction false} BalanceTotalInsert(x: MemberBalance, s: seq<MemberBalance>, dir: Direction)
    requires SortedBy(s, dir)
    ensures BalanceTotal(Insert(x, s, dir)) == x.balance + BalanceTotal(s)
  {
    if |s| == 0 || InOrder(dir, x, s[0]) {
      BalanceTotalCons(x, s);
    } else {
      assert s == [s[0]] + s[1..];
      BalanceTotalInsert(x, s[1..], dir);
      BalanceTotalCons(s[0], Insert(x, s[1..], dir));
      BalanceTotalCons(s[0], s[1..]);
    }
  }

  /** Sorting does not change the total. */
  lemma {:induction false} BalanceTotalSorted(s: seq<MemberBalance>, dir: Direction)
    ensures BalanceTotal(SortByBalance(s, dir)) == BalanceTotal(s)
  {
    if |s| > 0 {
      assert s == [s[0]] + s[1..];
      BalanceTotalSorted(s[1..], dir);
      BalanceTotalInsert(s[0], SortByBalance(s[1..], dir), dir);
      BalanceTotalCons(s[0], s[1..]);
    }
  }

  lemma BalanceTotalSnoc(s: seq<MemberBalance>, x: MemberBalance)
    ensures BalanceTotal(s + [x]) == BalanceTotal(s) + x.balance
  {
    assert (s + [x])[..|s|] == s;
  }

  /** Zero balances count for nothing: the total is the debtors' plus the creditors'. */
  lemma {:induction false} BalanceTotalSplits(balances: seq<MemberBalance>)
    ensures BalanceTotal(balances) == BalanceTotal(Debtors(balances)) + BalanceTotal(Creditors(balances))
  {
    if |balances| > 0 {
      var prefix, x := balances[..|balances| - 1], balances[|balances| - 1];
      assert balances == prefix + [x];
      BalanceTotalSplits(prefix);
      FilterSnoc(prefix, x, IsDebtor);
      FilterSnoc(prefix, x, IsCreditor);
      var d, c := Debtors(prefix), Creditors(prefix);
      if x.balance < 0.0 {
        assert Debtors(balances) == d + [x] && Creditors(balances) == c;
        BalanceTotalSnoc(d, x);
      } else if x.balance > 0.0 {
        assert Debtors(balances) == d && Creditors(balances) == c + [x];
        BalanceTotalSnoc(c, x);
      } else {
        assert Debtors(balances) == d && Creditors(balances) == c;
      }
    }
  }

  /** When the debts and credits cancel, a settlement that settles one side
      leaves the same residual on both sides, at most the dust threshold per entry. */
  lemma ResidualsMatch(ds: seq<MemberBalance>, cs: seq<MemberBalance>, steps: seq<Transfer>)
    requires BalanceTotal(ds) + BalanceTotal(cs) == 0.0
    requires InRange(ds, cs, steps) && OneSideSettled(ds, cs, steps)
    ensures ResidualDebt(ds, steps, |ds|) == ResidualCredit(cs, steps, |cs|)
    ensures ResidualDebt(ds, steps, |ds|) <= DustThreshold * (|ds| + |cs|) as real
  {
    BothSidesMoveTheSame(ds, cs, steps);
    ResidualDebtIsUnpaid(ds, steps, |ds|);
    ResidualCreditIsUnreceived(cs, steps, |cs|);
    assert ds[..|ds|] == ds && cs[..|cs|] == cs;
    if forall k :: 0 <= k < |ds| ==> RemainingDebt(ds, steps, k) < DustThreshold {
      ResidualDebtBound(ds, steps, |ds|);
    } else {
      ResidualCreditBound(cs, steps, |cs|);
    }
  }

  /** When the group's balances add up to zero, the greedy settlement leaves as
      much unpaid on the debtor side as unreceived on the creditor side, and
      that is at most the dust threshold per debtor and creditor. */
  lemma SettlementLeavesOnlyDust(balances: seq<MemberBalance>, steps: seq<Transfer>)
    requires BalanceTotal(balances) == 0.0
    requires InRange(SortedDebtors(balances), SortedCreditors(balances), steps)
    requires OneSideSettled(SortedDebtors(balances), SortedCreditors(balances), steps)
    ensures ResidualDebt(SortedDebtors(balances), steps, |SortedDebtors(balances)|) ==
            ResidualCredit(SortedCreditors(balances), steps, |SortedCreditors(balances)|)
    ensures ResidualDebt(SortedDebtors(balances), steps, |SortedDebtors(balances)|) <=
            DustThreshold * (|SortedDebtors(balances)| + |SortedCreditors(balances)|) as real
  {
    BalanceTotalSplits(balances);
    BalanceTotalSorted(Debtors(balances), Ascending);
    BalanceTotalSorted(Creditors(balances), Descending);
    ResidualsMatch(SortedDebtors(balances), SortedCreditors(balances), steps);
  }

  /** The sum of the debts' amounts. */
  function DebtTotal(debts: seq<Debt>): real
  {
    if |debts| == 0 then 0.0 else DebtTotal(debts[..|debts| - 1]) + debts[|debts| - 1].amount
  }

  lemma DebtTotalSnoc(debts: seq<Debt>, d: Debt)
    ensures DebtTotal(debts + [d]) == DebtTotal(debts) + d.amount
  {
    assert (debts + [d])[..|debts|] == debts;
  }

  /** Rounding to cents and dropping dust move the debts' total away from what
      the loop moved by at most half a cent upwards and one cent downwards per step. */
  lemma {:induction false} EmittedTotalNearMoved(ds: seq<MemberBalance>, cs: seq<MemberBalance>, steps: seq<Transfer>)
    requires InRange(ds, cs, steps) && PositiveSteps(steps)
    ensures Moved(steps) - DustThreshold * |steps| as real <= DebtTotal(Emitted(ds, cs, steps))
    ensures DebtTotal(Emitted(ds, cs, steps)) <= Moved(steps) + 0.005 * |steps| as real
  {
    if |steps| > 0 {
      var prefix, t := steps[..|steps| - 1], steps[|steps| - 1];
      assert steps == prefix + [t];
      assert InRange(ds, cs, prefix) && PositiveSteps(prefix);
      EmittedTotalNearMoved(ds, cs, prefix);
      EmittedSnoc(ds, cs, prefix, t);
      if t.amount > DustThreshold {
        DebtTotalSnoc(Emitted(ds, cs, prefix), Debt(ds[t.debtor].profile, cs[t.creditor].profile, RoundCents(t.amount)));
      }
    }
  }

  lemma {:induction false} ResidualCreditNonNegative(cs: seq<MemberBalance>, steps: seq<Transfer>, n: nat)
    requires n <= |cs|
    requires forall k :: 0 <= k < |cs| ==> RemainingCredit(cs, steps, k) >= 0.0
    ensures ResidualCredit(cs, steps, n) >= 0.0
  {
    if n > 0 {
      ResidualCreditNonNegative(cs, steps, n - 1);
    }
  }

  /** The debts add up to at most what the creditors are owed, plus half a cent
      of rounding per step. */
  lemma DebtsWithinCredit(balances: seq<MemberBalance>, steps: seq<Transfer>)
    requires InRange(SortedDebtors(balances), SortedCreditors(balances), steps)
    requires PositiveSteps(steps)
    requires NeverOvershoots(SortedDebtors(balances), SortedCreditors(balances), steps)
    ensures DebtTotal(Emitted(SortedDebtors(balances), SortedCreditors(balances), steps)) <=
            BalanceTotal(Creditors(balances)) + 0.005 * |steps| as real
  {
    var ds, cs := SortedDebtors(balances), SortedCreditors(balances);
    EmittedTotalNearMoved(ds, cs, steps);
    BothSidesMoveTheSame(ds, cs, steps);
    ResidualCreditIsUnreceived(cs, steps, |cs|);
    assert cs[..|cs|] == cs;
    ResidualCreditNonNegative(cs, steps, |cs|);
    BalanceTotalSorted(Creditors(balances), Descending);
  }

  /** When the balances add up to zero, the debts fall short of what the
      creditors are owed by at most one cent per step, per debtor and per creditor. */
  lemma DebtsCoverCredit(balances: seq<MemberBalance>, steps: seq<Transfer>)
    requires BalanceTotal(balances) == 0.0
    requires InRange(SortedDebtors(balances), SortedCreditors(balances), steps)
    requires PositiveSteps(steps)
    requires OneSideSettled(SortedDebtors(balances), SortedCreditors(balances), steps)
    ensures DebtTotal(Emitted(SortedDebtors(balances), SortedCreditors(balances), steps)) >=
            BalanceTotal(Creditors(balances)) -
            DustThreshold * (|steps| + |SortedDebtors(balances)| + |SortedCreditors(balances)|) as real
  {
    var ds, cs := SortedDebtors(balances), SortedCreditors(balances);
    EmittedTotalNearMoved(ds, cs, steps);
    BothSidesMoveTheSame(ds, cs, steps);
    ResidualCreditIsUnreceived(cs, steps, |cs|);
    assert cs[..|cs|] == cs;
    SettlementLeavesOnlyDust(balances, steps);
    BalanceTotalSorted(Creditors(balances), Descending);
  }

  /** A group where `a` owes `c` one and a half cents. */
  function HalfCentGroup(a: Profile, c: Profile): seq<MemberBalance>
  {
    [MemberBalance("a", a, 0.0, 0.015, -0.015), MemberBalance("c", c, 0.015, 0.0, 0.015)]
  }

  /** In that group, `a` is the only debtor and `c` the only creditor. */
  lemma HalfCentSides(a: Profile, c: Profile)
    ensures SortedDebtors(HalfCentGroup(a, c)) == [HalfCentGroup(a, c)[0]]
    ensures SortedCreditors(HalfCentGroup(a, c)) == [HalfCentGroup(a, c)[1]]
    ensures BalanceTotal(Creditors(HalfCentGroup(a, c))) == 0.015
  {
    var b := HalfCentGroup(a, c);
    var x, y := b[0], b[1];
    assert b == [x] + [y];
    FilterCons(x, [y], IsDebtor);
    FilterCons(y, [], IsDebtor);
    FilterCons(x, [y], IsCreditor);
    FilterCons(y, [], IsCreditor);
    assert Creditors(b) == [y];
    assert [y][..0] == [];
  }

  /** One step of one and a half cents settles both sides, and is emitted as two cents. */
  lemma HalfCentRun(x: MemberBalance, y: MemberBalance)
    requires x.balance == -0.015 && y.balance == 0.015
    ensures GreedySettlement([x], [y], [Transfer(0, 0, 0.015)])
    ensures Emitted([x], [y], [Transfer(0, 0, 0.015)]) == [Debt(x.profile, y.profile, 0.02)]
  {
    var only := [Transfer(0, 0, 0.015)];
    assert only[..0] == [] && only[..1] == only;
    assert RemainingDebt([x], only, 0) == 0.0;
    assert RoundCents(0.015) == 0.02;
  }

  /** In that group the only greedy settlement emits a debt of two cents, more
      than the one and a half cents `c` is owed: half a cent rounds up. */
  lemma HalfCentRoundsUp(a: Profile, c: Profile, steps: seq<Transfer>)
    requires GreedySettlement(SortedDebtors(HalfCentGroup(a, c)), SortedCreditors(HalfCentGroup(a, c)), steps)
    ensures Emitted(SortedDebtors(HalfCentGroup(a, c)), SortedCreditors(HalfCentGroup(a, c)), steps) == [Debt(a, c, 0.02)]
    ensures BalanceTotal(Creditors(HalfCentGroup(a, c))) == 0.015
    ensures DebtTotal(Emitted(SortedDebtors(HalfCentGroup(a, c)), SortedCreditors(HalfCentGroup(a, c)), steps)) == 0.02
  {
    var b := HalfCentGroup(a, c);
    HalfCentSides(a, c);
    HalfCentRun(b[0], b[1]);
    SettlementIsUnique([b[0]], [b[1]], steps, [Transfer(0, 0, 0.015)]);
    DebtTotalSnoc([], Debt(a, c, 0.02));
    assert [Debt(a, c, 0.02)] == [] + [Debt(a, c, 0.02)];
  }

  /** The greedy loop over the sorted debtors `ds` and creditors `cs`. `steps`
      records every iteration; the debts are the steps above the dust
      threshold, rounded to cents. */
  method Settle(ds: seq<MemberBalance>, cs: seq<MemberBalance>) returns (debts: seq<Debt>, ghost steps: seq<Transfer>)
    requires AllOwe(ds) && AllOwed(cs)
    ensures InRange(ds, cs, steps)
    ensures debts == Emitted(ds, cs, steps)
    ensures GreedyAmounts(ds, cs, steps)
    ensures CursorOrder(steps)
    ensures |steps| > 0 ==> steps[0].debtor == 0 && steps[0].creditor == 0
    ensures CursorsAdvance(ds, cs, steps)
    ensures EndsSettled(ds, cs, steps)
    ensures GreedySettlement(ds, cs, steps)
    ensures PositiveSteps(steps)
    ensures |steps| == 0 <==> |ds| == 0 || |cs| == 0
    ensures |steps| == 0 || |steps| < |ds| + |cs|
    ensures NeverOvershoots(ds, cs, steps)
    ensures OneSideSettled(ds, cs, steps)
    ensures forall d :: d in debts ==> d.amount >= DustThreshold
    ensures |debts| == 0 || |debts| < |ds| + |cs|
  {
    // The working copies whose balances the loop runs down.
    var debtors := new MemberBalance[|ds|](k requires 0 <= k < |ds| => ds[k]);
    var creditors := new MemberBalance[|cs|](k requires 0 <= k < |cs| => cs[k]);
    debts, steps := [], [];
    var i: nat, j: nat := 0, 0;
    assert debtors[..] == ds && creditors[..] == cs;
    SettlingStart(ds, cs);

    while i < debtors.Length && j < creditors.Length
      invariant debtors.Length == |ds| && creditors.Length == |cs|
      invariant Settling(ds, cs, i, j, steps)
      invariant RunningDebtors(ds, steps, debtors[..]) && RunningCreditors(cs, steps, creditors[..])
      invariant debts == Emitted(ds, cs, steps)
      decreases |ds| - i + |cs| - j
    {
      var transferAmount;
      transferAmount, debts := MoveAmount(ds, cs, debtors, creditors, i, j, steps, debts);
      var nextI := if Abs(debtors[i].balance) < DustThreshold then i + 1 else i;
      var nextJ := if creditors[j].balance < DustThreshold then j + 1 else j;
      SettleStep(ds, cs, i, j, steps, transferAmount, nextI, nextJ);
      steps := steps + [Transfer(i, j, transferAmount)];
      i, j := nextI, nextJ;
    }
    SettlingDone(ds, cs, i, j, steps);
  }

  /** `calculateDebts`: sort the debtors (largest debt first) and the creditors
      (largest credit first) and settle them greedily. */
  method CalculateDebts(balances: seq<MemberBalance>) returns (debts: seq<Debt>, ghost steps: seq<Transfer>)
    ensures InRange(SortedDebtors(balances), SortedCreditors(balances), steps)
    ensures debts == Emitted(SortedDebtors(balances), SortedCreditors(balances), steps)
    ensures GreedyAmounts(SortedDebtors(balances), SortedCreditors(balances), steps)
    ensures CursorOrder(steps)
    ensures |steps| > 0 ==> steps[0].debtor == 0 && steps[0].creditor == 0
    ensures CursorsAdvance(SortedDebtors(balances), SortedCreditors(balances), steps)
    ensures EndsSettled(SortedDebtors(balances), SortedCreditors(balances), steps)
    ensures GreedySettlement(SortedDebtors(balances), SortedCreditors(balances), steps)
    ensures PositiveSteps(steps)
    ensures |steps| == 0 <==> |Debtors(balances)| == 0 || |Creditors(balances)| == 0
    ensures |steps| == 0 || |steps| < |Debtors(balances)| + |Creditors(balances)|
    ensures NeverOvershoots(SortedDebtors(balances), SortedCreditors(balances), steps)
    ensures OneSideSettled(SortedDebtors(balances), SortedCreditors(balances), steps)
    ensures forall d :: d in debts ==>
      d.amount >= DustThreshold && IsDebtorProfile(balances, d.from) && IsCreditorProfile(balances, d.to)
    ensures ProfilesIdentifyEntries(balances) ==> forall d :: d in debts ==> d.from != d.to
  {
    var ds := SortedDebtors(balances);
    var cs := SortedCreditors(balances);
    assert AllOwe(ds) by {
      forall k | 0 <= k < |ds| ensures ds[k].balance < 0.0 { assert ds[k] in ds; }
    }
    assert AllOwed(cs) by {
      forall k | 0 <= k < |cs| ensures cs[k].balance > 0.0 { assert cs[k] in cs; }
    }
    debts, steps := Settle(ds, cs);
    EmittedBetweenMembers(balances, steps);
  }

  // ---------------------------------------------------------------------------
  // groupExpensesByDate
  // ---------------------------------------------------------------------------

  function ExpenseDateOf(e: PersonalExpense): string { e.expenseDate }

  /** The expenses dated `date`, in input order. */
  function OnDate(expenses: seq<PersonalExpense>, date: string): seq<PersonalExpense>
  {
    Filter(expenses, (e: PersonalExpense) => e.expenseDate == date)
  }

  lemma OnDateSnoc(expenses: seq<PersonalExpense>, e: PersonalExpense, date: string)
    ensures OnDate(expenses + [e], date) == OnDate(expenses, date) + (if e.expenseDate == date then [e] else [])
  {
    FilterSnoc(expenses, e, (x: PersonalExpense) => x.expenseDate == date);
  }

  /** Total length of the buckets of `dates`. */
  function BucketSizes(expenses: seq<PersonalExpense>, dates: seq<string>): nat
  {
    if |dates| == 0 then 0
    else BucketSizes(expenses, dates[..|dates| - 1]) + |OnDate(expenses, dates[|dates| - 1])|
  }

  /** Appending an expense grows exactly one bucket among distinct dates: its own, if listed. */
  lemma {:induction false} BucketSizesSnoc(expenses: seq<PersonalExpense>, e: PersonalExpense, dates: seq<string>)
    requires Distinct(dates)
    ensures BucketSizes(expenses + [e], dates) ==
      BucketSizes(expenses, dates) + (if e.expenseDate in dates then 1 else 0)
  {
    if |dates| > 0 {
      var prefix, last := dates[..|dates| - 1], dates[|dates| - 1];
      assert dates == prefix + [last];
      assert Distinct(prefix);
      assert last !in prefix;
      BucketSizesSnoc(expenses, e, prefix);
      OnDateSnoc(expenses, e, last);
    }
  }

  /** Bucketing neither loses nor duplicates an expense: over the distinct
      dates, the bucket sizes add up to the number of expenses. */
  lemma {:induction false} BucketSizesCoverAll(expenses: seq<PersonalExpense>)
    ensures BucketSizes(expenses, DistinctKeys(expenses, ExpenseDateOf)) == |expenses|
  {
    if |expenses| > 0 {
      var prefix, e := expenses[..|expenses| - 1], expenses[|expenses| - 1];
      assert expenses == prefix + [e];
      var dates := DistinctKeys(prefix, ExpenseDateOf);
      BucketSizesCoverAll(prefix);
      BucketSizesSnoc(prefix, e, dates);
      if e.expenseDate !in dates {
        var all := dates + [e.expenseDate];
        assert all[..|dates|] == dates;
        FilterNone(prefix, (x: PersonalExpense) => x.expenseDate == e.expenseDate);
        OnDateSnoc(prefix, e, e.expenseDate);
      }
    }
  }

  /** Total length of the buckets `groups` holds under `dates`. */
  function GroupSizes(dates: seq<string>, groups: map<string, seq<PersonalExpense>>): nat
    requires forall d :: d in dates ==> d in groups
  {
    if |dates| == 0 then 0
    else GroupSizes(dates[..|dates| - 1], groups) + |groups[dates[|dates| - 1]]|
  }

  lemma {:induction false} GroupSizesAreBucketSizes(expenses: seq<PersonalExpense>, dates: seq<string>,
                                                   groups: map<string, seq<PersonalExpense>>)
    requires forall d :: d in dates ==> d in groups && groups[d] == OnDate(expenses, d)
    ensures GroupSizes(dates, groups) == BucketSizes(expenses, dates)
  {
    if |dates| > 0 {
      var prefix := dates[..|dates| - 1];
      assert forall d :: d in prefix ==> d in dates;
      GroupSizesAreBucketSizes(expenses, prefix, groups);
    }
  }

  /** `dates` and `groups` are the `Map` that bucketing `expenses` leaves:
      the dates in order of first occurrence, each with its expenses in order. */
  ghost predicate GroupedByDate(expenses: seq<PersonalExpense>, dates: seq<string>, groups: map<string, seq<PersonalExpense>>)
  {
    && dates == DistinctKeys(expenses, ExpenseDateOf)
    && (forall d :: d in groups <==> d in dates)
    && (forall d :: d in groups ==> groups[d] == OnDate(expenses, d))
  }

  /** The `forEach` callback: push `expense` onto the bucket of its date,
      opening the bucket first when the date is new. */
  method PushByDate(ghost seen: seq<PersonalExpense>, dates: seq<string>, groups: map<string, seq<PersonalExpense>>,
                    expense: PersonalExpense)
    returns (dates': seq<string>, groups': map<string, seq<PersonalExpense>>)
    requires GroupedByDate(seen, dates, groups)
    ensures GroupedByDate(seen + [expense], dates', groups')
  {
    var date := expense.expenseDate;
    assert (seen + [expense])[..|seen|] == seen;
    forall d ensures OnDate(seen + [expense], d) == OnDate(seen, d) + (if date == d then [expense] else []) {
      OnDateSnoc(seen, expense, d);
    }
    dates', groups' := dates, groups;
    if date !in groups' {
      FilterNone(seen, (x: PersonalExpense) => x.expenseDate == date);
      dates' := dates' + [date];
      groups' := groups'[date := []];
    }
    groups' := groups'[date := groups'[date] + [expense]];
  }

  /** Buckets the expenses by `expense_date`: the dates in order of first
      occurrence (the `Map`'s key order) and, for each date, its expenses in input order. */
  method GroupExpensesByDate(expenses: seq<PersonalExpense>)
    returns (dates: seq<string>, groups: map<string, seq<PersonalExpense>>)
    ensures dates == DistinctKeys(expenses, ExpenseDateOf)
    ensures forall d :: d in groups <==> d in dates
    ensures forall d :: d in groups ==> groups[d] == OnDate(expenses, d)
    ensures forall e :: e in expenses ==> e.expenseDate in groups && e in groups[e.expenseDate]
    ensures GroupSizes(dates, groups) == |expenses|
  {
    dates, groups := [], map[];
    for i := 0 to |expenses|
      invariant GroupedByDate(expenses[..i], dates, groups)
    {
      assert expenses[..i + 1] == expenses[..i] + [expenses[i]];
      dates, groups := PushByDate(expenses[..i], dates, groups, expenses[i]);
    }
    assert expenses[..|expenses|] == expenses;
    forall e | e in expenses ensures e.expenseDate in groups && e in groups[e.expenseDate] {
      assert ExpenseDateOf(e) in dates;
    }
    GroupSizesAreBucketSizes(expenses, dates, groups);
    BucketSizesCoverAll(expenses);
  }
}
