/** The chart series of `updateChart` (main.js:139-163): a stable copy of the ledger
    sorted by date, walked once to build dates, incomes, expenses and running
    balances. */
module Chart {
  import opened Seqs
  import opened Transactions

  /** Dates never decrease along `s`. */
  predicate Sorted(s: seq<Transaction>) {
    forall j, k :: 0 <= j <= k < |s| ==> s[j].date <= s[k].date
  }

  /** The entries of `s` dated `day`, in their order in `s`. */
  function OnDay(day: int): Transaction -> bool {
    (t: Transaction) => t.date == day
  }

  /** Places `t` after every trailing entry of `r` not dated later than it; on a
      sorted `r` that is after every entry with a date not later than `t`'s. */
  function Insert(t: Transaction, r: seq<Transaction>): (r': seq<Transaction>)
    ensures |r'| == |r| + 1
    ensures multiset(r') == multiset(r) + multiset{t}
    decreases |r|
  {
    if r == [] || r[|r| - 1].date <= t.date then r + [t]
    else
      SplitLast(r);
      Insert(t, r[..|r| - 1]) + [r[|r| - 1]]
  }

  lemma {:induction false} InsertKeepsSorted(t: Transaction, r: seq<Transaction>)
    requires Sorted(r)
    ensures Sorted(Insert(t, r))
    decreases |r|
  {
    if r != [] && r[|r| - 1].date > t.date {
      var init, last := r[..|r| - 1], r[|r| - 1];
      InsertKeepsSorted(t, init);
      var a := Insert(t, init);
      forall j | 0 <= j < |a| ensures a[j].date <= last.date {
        assert a[j] in multiset(init) + multiset{t};
        if a[j] in init {
          var i :| 0 <= i < |init| && init[i] == a[j];
          assert r[i] == a[j];
        }
      }
    }
  }

  /** Entries dated `day` keep their order when `t` is inserted; `t` comes after
      all of them. */
  lemma {:induction false} InsertStable(t: Transaction, r: seq<Transaction>, day: int)
    ensures Select(Insert(t, r), OnDay(day)) ==
      Select(r, OnDay(day)) + (if t.date == day then [t] else [])
    decreases |r|
  {
    var p := OnDay(day);
    if r == [] || r[|r| - 1].date <= t.date {
      SelectSnoc(r, t, p);
    } else {
      var init, last := r[..|r| - 1], r[|r| - 1];
      var a := Insert(t, init);
      assert Insert(t, r) == a + [last];
      InsertStable(t, init, day);
      SelectSnoc(a, last, p);
      SplitLast(r);
      SelectSnoc(init, last, p);
      SwapEmpty(Select(init, p), if t.date == day then [t] else [], if last.date == day then [last] else []);
    }
  }

  lemma {:induction false} NetInsert(t: Transaction, r: seq<Transaction>)
    ensures Net(Insert(t, r)) == Net(r) + Effect(t)
    decreases |r|
  {
    if r == [] || r[|r| - 1].date <= t.date {
      NetSnoc(r, t);
    } else {
      var init, last := r[..|r| - 1], r[|r| - 1];
      NetInsert(t, init);
      NetSnoc(Insert(t, init), last);
    }
  }

  /** `transactions.slice().sort((a, b) => date(a) - date(b))`: a sorted
      permutation of the ledger. The sort is stable, which `SortStable` states. */
  function SortByDate(s: seq<Transaction>): (r: seq<Transaction>)
    ensures |r| == |s|
    ensures multiset(r) == multiset(s)
    ensures Sorted(r)
    decreases |s|
  {
    if s == [] then []
    else
      var sorted := SortByDate(s[..|s| - 1]);
      InsertKeepsSorted(s[|s| - 1], sorted);
      SplitLast(s);
      Insert(s[|s| - 1], sorted)
  }

  /** Stability: for every day, the entries dated that day appear in the sorted
      copy in the same order as in the ledger. */
  lemma {:induction false} SortStable(s: seq<Transaction>, day: int)
    ensures Select(SortByDate(s), OnDay(day)) == Select(s, OnDay(day))
    decreases |s|
  {
    if s != [] {
      var init, last := s[..|s| - 1], s[|s| - 1];
      SortStable(init, day);
      InsertStable(last, SortByDate(init), day);
      SplitLast(s);
      SelectSnoc(init, last, OnDay(day));
    }
  }

  /** Sorting does not change the net effect of the ledger. */
  lemma {:induction false} NetSort(s: seq<Transaction>)
    ensures Net(SortByDate(s)) == Net(s)
    decreases |s|
  {
    if s != [] {
      var init, last := s[..|s| - 1], s[|s| - 1];
      NetSort(init);
      NetInsert(last, SortByDate(init));
    }
  }

  /** The balance after each entry of `s`, carrying the running balance `running`
      from one entry to the next. */
  function RunningFrom(s: seq<Transaction>, running: int): (b: seq<int>)
    ensures |b| == |s|
    decreases |s|
  {
    if s == [] then []
    else [running + Effect(s[0])] + RunningFrom(s[1..], running + Effect(s[0]))
  }

  /** Entry `k` of the running balances is the starting value plus the net of
      entries `0..k`. */
  lemma {:induction false} RunningFromAt(s: seq<Transaction>, running: int)
    ensures forall k :: 0 <= k < |s| ==> RunningFrom(s, running)[k] == running + Net(s[..k + 1])
    decreases |s|
  {
    if s != [] {
      var next := running + Effect(s[0]);
      RunningFromAt(s[1..], next);
      forall k | 0 <= k < |s| ensures RunningFrom(s, running)[k] == running + Net(s[..k + 1]) {
        PrefixOfTail(s, k);
        NetConcat([s[0]], s[1..][..k]);
        NetSnoc([], s[0]);
        if k > 0 {
          assert RunningFrom(s, running)[k] == RunningFrom(s[1..], next)[k - 1];
        }
      }
    }
  }

  /** The last running balance of the sorted copy is the seed plus the net of the
      whole ledger. */
  lemma RunningFromLast(ledger: seq<Transaction>, seed: int)
    ensures ledger != [] ==>
      RunningFrom(SortByDate(ledger), seed)[|ledger| - 1] == seed + Net(ledger)
  {
    if ledger != [] {
      var sorted := SortByDate(ledger);
      RunningFromAt(sorted, seed);
      NetSort(ledger);
      assert sorted[..|ledger|] == sorted;
    }
  }

  /** One step of the walk: the entry at `i` yields the next running balance. */
  lemma RunningFromStep(s: seq<Transaction>, i: nat, running: int, done: seq<int>)
    requires i < |s|
    ensures done + RunningFrom(s[i..], running) ==
      (done + [running + Effect(s[i])]) + RunningFrom(s[i + 1..], running + Effect(s[i]))
  {
    DropNext(s, i);
    assert s[i..][1..] == s[i + 1..];
    AppendAssoc(done, [running + Effect(s[i])], RunningFrom(s[i + 1..], running + Effect(s[i])));
  }

  /** The `forEach` walk of `updateChart` over an already sorted copy: one date,
      one income, one expense and one running balance per entry. */
  method Walk(sorted: seq<Transaction>, seed: int)
    returns (dates: seq<int>, incomes: seq<int>, expenses: seq<int>, balances: seq<int>)
    ensures |dates| == |incomes| == |expenses| == |sorted|
    ensures forall k :: 0 <= k < |sorted| ==> dates[k] == sorted[k].date
    ensures forall k :: 0 <= k < |sorted| ==>
      (sorted[k].kind == Income ==> incomes[k] == sorted[k].amount && expenses[k] == 0) &&
      (sorted[k].kind == Expense ==> incomes[k] == 0 && expenses[k] == sorted[k].amount)
    ensures balances == RunningFrom(sorted, seed)
  {
    dates, incomes, expenses, balances := [], [], [], [];
    var running := seed;
    for i := 0 to |sorted|
      invariant |dates| == |incomes| == |expenses| == |balances| == i
      invariant balances + RunningFrom(sorted[i..], running) == RunningFrom(sorted, seed)
      invariant forall k :: 0 <= k < i ==> dates[k] == sorted[k].date
      invariant forall k :: 0 <= k < i ==>
        (sorted[k].kind == Income ==> incomes[k] == sorted[k].amount && expenses[k] == 0) &&
        (sorted[k].kind == Expense ==> incomes[k] == 0 && expenses[k] == sorted[k].amount)
    {
      var t := sorted[i];
      ghost var before := running;
      RunningFromStep(sorted, i, running, balances);
      dates := dates + [t.date];
      match t.kind {
        case Income =>
          incomes := incomes + [t.amount];
          expenses := expenses + [0];
          running := running + t.amount;
        case Expense =>
          incomes := incomes + [0];
          expenses := expenses + [t.amount];
          running := running - t.amount;
      }
      assert running == before + Effect(t);
      balances := balances + [running];
    }
  }

  /** The four parallel series the chart draws, from the running balance seeded
      with `seed`: position `k` describes the `k`-th entry of the date-sorted copy,
      so the dates never decrease, and the last balance is the seed plus the net
      of the whole ledger. */
  method Series(ledger: seq<Transaction>, seed: int)
    returns (dates: seq<int>, incomes: seq<int>, expenses: seq<int>, balances: seq<int>)
    ensures |dates| == |incomes| == |expenses| == |balances| == |ledger|
    ensures forall k :: 0 <= k < |ledger| ==> dates[k] == SortByDate(ledger)[k].date
    ensures forall j, k :: 0 <= j <= k < |dates| ==> dates[j] <= dates[k]
    ensures forall k :: 0 <= k < |ledger| ==>
      (SortByDate(ledger)[k].kind == Income ==>
        incomes[k] == SortByDate(ledger)[k].amount && expenses[k] == 0) &&
      (SortByDate(ledger)[k].kind == Expense ==>
        incomes[k] == 0 && expenses[k] == SortByDate(ledger)[k].amount)
    ensures forall k :: 0 <= k < |ledger| ==>
      balances[k] == seed + Net(SortByDate(ledger)[..k + 1])
    ensures ledger != [] ==> balances[|ledger| - 1] == seed + Net(ledger)
  {
    var sorted := SortByDate(ledger);
    dates, incomes, expenses, balances := Walk(sorted, seed);
    RunningFromAt(sorted, seed);
    RunningFromLast(ledger, seed);
  }
}
