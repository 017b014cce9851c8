/** The ledger state of main.js (`transactions`, `currentBalance`) and the handlers
    that change it: setting the starting balance, adding, deleting and editing
    entries. Form fields are parameters; an alert is a returned `Fail`. */
module Store {
  import opened Text
  import opened Transactions
  import Search
  import Chart

  class Ledger {
    /** The entries in insertion order; delete and edit index into this. */
    var transactions: seq<Transaction>
    var balance: int
    /** The starting-balance input and its button are disabled. */
    var locked: bool
    /** The balance an empty ledger would have: the starting balance, less the net
        of any entries added before it was set. */
    ghost var offset: int

    ghost predicate Valid()
      reads this
    {
      && balance == offset + Net(transactions)
      && forall t :: t in transactions ==> WellFormed(t)
    }

    /** The page's initial state: no entries, balance 0, inputs enabled. */
    constructor ()
      ensures Valid()
      ensures transactions == [] && balance == 0 && !locked && offset == 0
    {
      transactions := [];
      balance := 0;
      locked := false;
      offset := 0;
    }

    /** `setStartingBalance`: rejects not-a-number and negative values; otherwise
        overwrites the balance and disables the starting-balance input. The ledger
        is untouched, so seeding a non-empty ledger moves the offset. */
    method SetStartingBalance(input: Number) returns (r: Outcome)
      requires Valid()
      modifies this
      ensures Valid()
      ensures r == Pass <==> input.Num? && input.value >= 0
      ensures r.Fail? ==> r.error == InvalidStartingBalance && unchanged(this)
      ensures r.Pass? ==> balance == input.value && locked && transactions == old(transactions)
      ensures r.Pass? ==> offset == input.value - Net(transactions)
    {
      if input.NaN? || input.value < 0 {
        return Fail(InvalidStartingBalance);
      }
      balance := input.value;
      offset := input.value - Net(transactions);
      locked := true;
      r := Pass;
    }

    /** A click on the starting-balance button: a disabled button dispatches no
        click, so once locked nothing happens; otherwise `setStartingBalance` runs. */
    method PressSetStartingBalance(input: Number) returns (r: Option<Outcome>)
      requires Valid()
      modifies this
      ensures Valid()
      ensures old(locked) ==> r == None && unchanged(this)
      ensures !old(locked) ==> r.Some? && (r.value == Pass <==> input.Num? && input.value >= 0)
      ensures !old(locked) && r.Some? && r.value.Fail? ==> unchanged(this)
      ensures !old(locked) && r == Some(Pass) ==> balance == input.value && locked
      ensures !old(locked) && r == Some(Pass) ==> offset == input.value - Net(transactions)
      ensures transactions == old(transactions)
    {
      if locked {
        return None;
      }
      var outcome := SetStartingBalance(input);
      r := Some(outcome);
    }

    /** `addTransaction`: rejects an all-blank category, a zero or not-a-number
        amount, and an empty date, changing nothing; otherwise appends the entry
        with its trimmed category and applies its effect to the balance. A negative
        amount is accepted. */
    method AddTransaction(kind: Kind, category: string, amount: Number, date: Option<int>)
      returns (r: Outcome)
      requires Valid()
      modifies this
      ensures Valid()
      ensures r == Pass <==> Trim(category) != [] && amount.Num? && amount.value != 0 && date.Some?
      ensures r.Fail? ==> r.error == IncompleteTransaction && unchanged(this)
      ensures r.Pass? ==>
        transactions == old(transactions) + [Transaction(kind, Trim(category), amount.value, date.value)]
      ensures r.Pass? ==> balance == old(balance) + Effect(transactions[|transactions| - 1])
      ensures locked == old(locked) && offset == old(offset)
    {
      var trimmed := Trim(category);
      if trimmed == [] || amount.NaN? || amount.value == 0 || date.None? {
        return Fail(IncompleteTransaction);
      }
      var t := Transaction(kind, trimmed, amount.value, date.value);
      NetSnoc(transactions, t);
      transactions := transactions + [t];
      match kind {
        case Income => balance := balance + t.amount;
        case Expense => balance := balance - t.amount;
      }
      r := Pass;
    }

    /** `deleteTransaction`: takes out the entry at insertion position `i`, keeping
        the others in order, and reverses its effect on the balance. */
    method DeleteTransaction(i: nat)
      requires Valid()
      requires i < |transactions|
      modifies this
      ensures Valid()
      ensures transactions == Removed(old(transactions), i)
      ensures balance == old(balance) - Effect(old(transactions)[i])
      ensures locked == old(locked) && offset == old(offset)
    {
      var t := transactions[i];
      match t.kind {
        case Income => balance := balance - t.amount;
        case Expense => balance := balance + t.amount;
      }
      NetRemoved(transactions, i);
      transactions := transactions[..i] + transactions[i + 1..];
    }

    /** `editTransaction`: stages the four fields of entry `i` into the entry form,
        then deletes the entry. */
    method EditTransaction(i: nat) returns (draft: Draft)
      requires Valid()
      requires i < |transactions|
      modifies this
      ensures Valid()
      ensures var t := old(transactions)[i];
        draft == Draft(t.kind, t.category, Num(t.amount), Some(t.date))
      ensures transactions == Removed(old(transactions), i)
      ensures balance == old(balance) - Effect(old(transactions)[i])
      ensures locked == old(locked) && offset == old(offset)
    {
      var t := transactions[i];
      draft := Draft(t.kind, t.category, Num(t.amount), Some(t.date));
      DeleteTransaction(i);
    }

    /** The value `updateBalance` shows: the offset plus the Income total minus the
        Expense total; on a ledger seeded while empty, the offset is the starting
        balance. */
    method CurrentBalance() returns (b: int)
      requires Valid()
      ensures b == offset + SumIncome(transactions) - SumExpense(transactions)
    {
      NetIsIncomeMinusExpense(transactions);
      b := balance;
    }

    /** `filterTransactions`: the entries the search box shows, read without
        changing the ledger or the balance. */
    method Filter(query: string) returns (shown: seq<Transaction>)
      requires Valid()
      ensures shown == Search.Filter(transactions, query)
      ensures |shown| <= |transactions|
      ensures forall t :: t in shown <==> t in transactions && Search.Matches(t, query)
    {
      shown := Search.Filter(transactions, query);
    }

    /** `updateChart`: the four series of the ledger, read without changing it.
        Seeded with the starting balance of a ledger that was empty when it was
        set, the last running balance is the balance on display. */
    method UpdateChart(seed: int)
      returns (dates: seq<int>, incomes: seq<int>, expenses: seq<int>, balances: seq<int>)
      requires Valid()
      ensures |dates| == |incomes| == |expenses| == |balances| == |transactions|
      ensures forall k :: 0 <= k < |transactions| ==> dates[k] == Chart.SortByDate(transactions)[k].date
      ensures forall j, k :: 0 <= j <= k < |dates| ==> dates[j] <= dates[k]
      ensures forall k :: 0 <= k < |transactions| ==>
        (Chart.SortByDate(transactions)[k].kind == Income ==>
          incomes[k] == Chart.SortByDate(transactions)[k].amount && expenses[k] == 0) &&
        (Chart.SortByDate(transactions)[k].kind == Expense ==>
          incomes[k] == 0 && expenses[k] == Chart.SortByDate(transactions)[k].amount)
      ensures forall k :: 0 <= k < |transactions| ==>
        balances[k] == seed + Net(Chart.SortByDate(transactions)[..k + 1])
      ensures transactions != [] ==> balances[|balances| - 1] == seed + Net(transactions)
      ensures transactions != [] && seed == offset ==> balances[|balances| - 1] == balance
    {
      dates, incomes, expenses, balances := Chart.Series(transactions, seed);
    }
  }

  /** Adding an entry and deleting it at the last position restores the ledger and
      the balance exactly. */
  method AddThenDelete(ledger: Ledger, kind: Kind, category: string, amount: Number, date: Option<int>)
    returns (r: Outcome)
    requires ledger.Valid()
    modifies ledger
    ensures ledger.Valid()
    ensures ledger.transactions == old(ledger.transactions)
    ensures ledger.balance == old(ledger.balance)
  {
    r := ledger.AddTransaction(kind, category, amount, date);
    if r.Pass? {
      ghost var t := ledger.transactions[|ledger.transactions| - 1];
      AppendRemoveRoundTrip(old(ledger.transactions), t);
      ledger.DeleteTransaction(|ledger.transactions| - 1);
    }
  }

  /** Editing entry `i` and submitting the staged fields unchanged is accepted and
      restores the length and the balance; the entry comes back at the end, so the
      ledger is a permutation of what it was. */
  method EditThenResubmit(ledger: Ledger, i: nat) returns (r: Outcome)
    requires ledger.Valid()
    requires i < |ledger.transactions|
    modifies ledger
    ensures ledger.Valid()
    ensures r == Pass
    ensures ledger.transactions == Removed(old(ledger.transactions), i) + [old(ledger.transactions)[i]]
    ensures |ledger.transactions| == |old(ledger.transactions)|
    ensures multiset(ledger.transactions) == multiset(old(ledger.transactions))
    ensures ledger.balance == old(ledger.balance)
  {
    ghost var s := ledger.transactions;
    assert WellFormed(s[i]);
    TrimFixed(s[i].category);
    var draft := ledger.EditTransaction(i);
    r := ledger.AddTransaction(draft.kind, draft.category, draft.amount, draft.date);
    ResubmitRestores(s, i);
  }

  /** Once a valid starting balance is set, a second attempt changes nothing: the
      input is disabled. */
  method SeedTwice(ledger: Ledger, first: Number, second: Number)
    requires ledger.Valid()
    requires !ledger.locked
    requires first.Num? && first.value >= 0
    modifies ledger
    ensures ledger.Valid()
    ensures ledger.locked && ledger.balance == first.value
  {
    var r1 := ledger.PressSetStartingBalance(first);
    var r2 := ledger.PressSetStartingBalance(second);
  }
}
