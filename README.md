# Finance-Tracker ledger, modelled in Dafny

Finance-Tracker is a single-page budget tracker. Its state lives in `main.js`:
one array of transactions (type Income or Expense, category, amount, date) and
one current balance. The user sets a starting balance once. Each transaction
added moves the balance by its amount. Delete and edit work on insertion
positions, and a search box filters the list. A chart shows the entries sorted
by date, with a running balance.

This project models that in-memory bookkeeping and proves what it promises:

- `Store.Ledger` is a class holding the `transactions` sequence, the `balance`,
  and the `locked` flag of the starting-balance input. Its methods are the
  handlers `setStartingBalance`, `addTransaction`, `deleteTransaction` and
  `editTransaction`.
- Its invariant `Valid()` ties the balance to the ledger: the balance is a
  ghost offset plus `Net(transactions)`, and every stored entry has a trimmed,
  non-empty category and a non-zero amount. The offset is the starting balance
  when the ledger was empty when it was seeded. Otherwise it is the starting
  balance less the net of the entries added before it, because
  `setStartingBalance` overwrites the balance outright.
- `Search` is the predicate of `filterTransactions`: the lower-cased type name or
  category contains the lower-cased query. It is built on `Text`, which holds
  JavaScript's `trim` (the full ECMAScript white-space and line-terminator set),
  `toLowerCase` and `includes`.
- `Chart` is the series computation of `updateChart`. `SortByDate` is a stable
  insertion sort by date. `Walk` is the `forEach` loop building dates, incomes,
  expenses and running balances. `Series` combines the two.
- `Seqs` holds `Select`, an order-preserving filter in the shape of
  `Array.prototype.filter`, and small sequence identities.
- `Scenario` follows one concrete session through the model: seed 500, add
  Income 200 and Expense 50, chart, then delete the Income entry.

Amounts are integers (cents) and dates are day numbers. A failed validation is a
returned `Fail(error)` where the page shows an alert; the form fields are
parameters.

## Model

| member | source | states |
|---|---|---|
| Store.Ledger.constructor | main.js:1-2 | The page starts with an empty ledger, balance 0 and an unlocked starting-balance input. |
| Store.Ledger.SetStartingBalance | main.js:9-24 | Succeeds exactly when the input is a number and not negative. On failure nothing changes. On success the balance is the input, the input is locked and the ledger is untouched; the invariant is kept. |
| Store.Ledger.PressSetStartingBalance | main.js:9-24 | Once the input is locked, a press does nothing and changes no state. Before that it behaves as `setStartingBalance`: it succeeds exactly on a number that is not negative, a rejected press changes nothing (the input stays unlocked), and a successful press sets the balance and the offset and locks the input. |
| Store.Ledger.AddTransaction | main.js:32-49 | Rejects, changing nothing, exactly when the trimmed category is empty, the amount is NaN or 0, or the date is empty; negative amounts pass. On success it appends exactly one entry with the trimmed category at the end, keeps every earlier entry, and moves the balance by +amount for Income and -amount for Expense. |
| Store.Ledger.DeleteTransaction | main.js:89-94 | For a position inside the ledger, removes exactly that entry, keeps the others in order, and reverses its effect on the balance. |
| Store.Ledger.EditTransaction | main.js:101-109 | Stages exactly the type, category, amount and date of entry `i`, then has the effect of deleting entry `i`. |
| Store.Ledger.CurrentBalance | main.js:48-49 | The balance equals the offset plus the Income total minus the Expense total; the offset is the starting balance on a ledger seeded while empty. |
| Store.Ledger.Filter | main.js:113-117 | The search returns `Search.Filter` of the ledger: the matching entries as an order-preserving subsequence, every matching entry and nothing else. It changes neither the ledger nor the balance. |
| Store.Ledger.UpdateChart | main.js:139-163 | The four series have one element per entry and describe the date-sorted copy of the ledger in order: its dates, which never decrease, the amount under income or expense as the type says with 0 under the other, and `balances[k]` equal to the seed plus the net of sorted entries `0..k`. The ledger is unchanged. The last balance is the seed plus the net of the ledger; seeded with the starting balance of a ledger seeded while empty, it is the balance on display. |
| Store.AddThenDelete | main.js:89-94 | Adding an entry and deleting it at the last position restores the ledger and the balance exactly. |
| Store.EditThenResubmit | main.js:101-109 | Re-submitting the staged fields of an edit is accepted. It restores the length and the balance. The entry returns at the end, so the ledger is a permutation of the old one. |
| Store.SeedTwice | main.js:23-24 | After a valid starting balance, a second press with any value leaves the balance at the first value. |
| Transactions.Removed | main.js:94 | `splice(i, 1)`: one shorter, entries before `i` in place, entries after `i` shifted down by one. |
| Transactions.Effect | main.js:48-49 | The signed change one entry makes to the balance: +amount for Income, -amount for Expense. The same rule, reversed, is the delete at main.js:91-92 and, accumulated, the chart walk at main.js:152-160; `Store.Ledger.AddTransaction`, `Store.Ledger.DeleteTransaction` and `Chart.Walk` state it. |
| Transactions.NetIsIncomeMinusExpense | main.js:48-49 | The accumulated effect of a ledger equals the sum of its Income amounts minus the sum of its Expense amounts. |
| Transactions.NetConcat | main.js:48-49 | The net effect is additive over concatenation. |
| Transactions.NetRemoved | main.js:91-94 | Removing entry `i` removes exactly its effect from the net. |
| Transactions.AppendRemoveRoundTrip | main.js:46 | Removing the entry just pushed gives back the ledger and its net. |
| Transactions.ResubmitRestores | main.js:101-109 | Taking entry `i` out and appending it again keeps the length, the multiset of entries and the net. |
| Text.TrimStartSpec | main.js:34 | Trimming the front drops only white space and leaves a suffix that is empty or starts with a non-space. |
| Text.TrimEndSpec | main.js:34 | Trimming the back drops only white space and leaves a prefix that is empty or ends with a non-space. |
| Text.Trim | main.js:34 | The trimmed text is no longer than the input and neither starts nor ends with white space; `Text.TrimSlice` adds that it is the input with edge white space alone removed. |
| Text.TrimSlice | main.js:34 | `trim` returns a contiguous slice `s[a..b]` of its input, and every character outside the slice is white space. |
| Text.TrimEmptyIffBlank | main.js:39 | The trimmed category is empty exactly when every character of the input is white space. |
| Text.TrimFixed | main.js:34 | Text that is already trimmed is unchanged by `trim`. |
| Text.TrimIdempotent | main.js:34 | Trimming twice is trimming once. |
| Text.LowerChar | main.js:114 | Lower-casing maps `A`-`Z` to `a`-`z` and leaves every other character alone. |
| Text.Lower | main.js:114 | Lower-casing keeps the length and leaves no upper-case ASCII letter. |
| Text.LowerAt | main.js:114 | Character `i` of the lower-cased string is `LowerChar` of character `i` of the input, and the length is kept. |
| Text.LowerIdempotent | main.js:114 | Lower-casing twice is lower-casing once. |
| Text.Contains | main.js:116 | `includes`: the needle is a prefix of the haystack or of one of its suffixes; `Text.ContainsAt` states the positional meaning. |
| Text.ContainsAt | main.js:116 | `includes` holds exactly when the needle occurs at some position of the haystack. |
| Seqs.SelectByIndices | main.js:115 | `filter` keeps, at strictly increasing positions and in order, exactly the elements satisfying the predicate. |
| Seqs.SelectMembers | main.js:115 | An element is in the `filter` result exactly when it is in the input and satisfies the predicate. |
| Seqs.SelectAll | main.js:115 | When every element satisfies the predicate, `filter` returns the whole input. |
| Search.Matches | main.js:116 | The `filter` callback: the lower-cased type name or the lower-cased category contains the lower-cased query; `Search.MatchesIgnoresCase` and `Search.SearchByTypeName` state its properties. |
| Search.Filter | main.js:113-117 | The result is no longer than the ledger and holds exactly the ledger entries that match the query. |
| Search.FilterIsSubsequence | main.js:115-117 | The result is an order-preserving subsequence: entry `k` is the ledger entry at the `k`-th of strictly increasing positions, and a position is used exactly when its entry matches. |
| Search.FilterEmptyQuery | main.js:114-117 | An empty query shows the whole ledger. |
| Search.MatchesIgnoresCase | main.js:114-116 | A query and its lower-cased form match the same entries. |
| Search.SearchByTypeName | main.js:116 | The query `INC` finds every Income entry and no Expense entry whose category does not contain `inc`. |
| Chart.Insert | main.js:147 | Inserting one entry adds one to the length and adds exactly that entry to the multiset. |
| Chart.InsertKeepsSorted | main.js:147 | Inserting into a date-ordered sequence keeps it date-ordered. |
| Chart.InsertStable | main.js:147 | Inserting keeps the order of the entries of every day and places the new entry after those of its own day. |
| Chart.NetInsert | main.js:147 | Inserting an entry adds exactly its effect to the net. |
| Chart.SortByDate | main.js:147 | The sorted copy has the ledger's length and multiset of entries, and its dates never decrease. |
| Chart.SortStable | main.js:147 | The sort is stable: for every day, the entries of that day keep their ledger order. |
| Chart.NetSort | main.js:147 | Sorting does not change the net effect. |
| Chart.RunningFrom | main.js:149-162 | One running balance per entry. |
| Chart.RunningFromAt | main.js:155-162 | Running balance `k` is the starting value plus the net of entries `0..k`. |
| Chart.RunningFromLast | main.js:144-162 | The last running balance of the sorted copy is the seed plus the net of the whole ledger. |
| Chart.RunningFromStep | main.js:149-162 | One step of the walk turns the running balance into the next element of the running-balance series. |
| Chart.Walk | main.js:149-163 | The loop yields one date, income, expense and balance per entry. Position `k` has the date of entry `k`. Exactly one of the income and the expense at `k` is the amount, as the entry's type says, and the other is 0. The balances are the running balances from the seed. |
| Chart.Series | main.js:139-163 | All four series have the ledger's length. They describe the date-sorted copy in order, so the dates never decrease, and income and expense are split by type. `balances[k]` is the seed plus the net of sorted entries `0..k`. The last balance is the seed plus the net of the whole ledger. |
| Scenario.TwoEntries | main.js:147-162 | An Income of 200 on day 1 and an Expense of 50 on day 2 are already in date order, with nets 200 and 150. |
| Scenario.Record | main.js:9-49 | Seeding 500 and adding those two entries gives that ledger and balance 650. |
| Scenario.Session | main.js:9-163 | That session charts running balances `[700, 650]`, and deleting the Income entry leaves balance 450. |

## Left out

- DOM reads and writes, `alert`, and the clearing of the form fields (main.js:52-54) are left out. Inputs are parameters and an alert is a returned `Fail`.
- `updateBalance` (main.js:63-65) only formats the balance with `toFixed(2)`. `CurrentBalance` stands for the value it shows.
- `updateTable` and the row rendering of `filterTransactions` (main.js:68-86, 119-135) are HTML templating. This includes the filtered rows' delete and edit buttons, which carry positions in the filtered list rather than in the ledger.
- Chart.js construction, `chart.destroy()` and `pdf()` (main.js:165-258) are foreign library calls and I/O.
- `parseFloat`, `new Date` and IEEE floating point are not modelled. Amounts are integers in cents. A parsed field is `NaN` or a number, and `Infinity` is not represented. Dates are integer day numbers, ordered as the ISO date strings they come from are. The comparator's subtraction becomes a comparison of day numbers.
- The chart's seed is a parameter of `Series`. The chart's re-read of the raw starting-balance input with its `|| 0` fallback (main.js:144) is left out. `Store.Ledger.UpdateChart` states the link to the stored balance when the seed is the starting balance.
- Text.LowerChar: lower-cases ASCII letters only, and so does `Text.Lower`, built from it. Unicode case mapping beyond `A`-`Z` is not modelled.
- The lock is the disabled input and button: a disabled button dispatches no click. The store itself does not re-check it, and neither does `SetStartingBalance`; `PressSetStartingBalance` models the button.
- Store.Ledger.AddTransaction: the type is the `Kind` datatype, because the page's select offers only Income and Expense. The source's two independent `if`s (main.js:48-49), which would leave the balance alone for any other type string, are therefore not modelled.
- Store.Ledger.AddTransaction: only a falsy amount (NaN or 0) is rejected, as in main.js:39, so negative amounts are accepted.
- Store.Ledger.Filter: the search is a read of the ledger. The model states the entries it selects, in order, and that it changes nothing; the re-rendering of the table with them is not modelled.
