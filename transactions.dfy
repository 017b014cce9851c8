/** The values the ledger holds (transactions, parsed numbers, empty-or-set fields)
    and the arithmetic of their effect on the balance. */
module Transactions {
  import opened Text
  import opened Seqs

  datatype Kind = Income | Expense

  /** One recorded money movement. Amounts are in cents; dates are day numbers,
      ordered as the `YYYY-MM-DD` strings of a date input order. */
  datatype Transaction = Transaction(kind: Kind, category: string, amount: int, date: int)

  /** What `parseFloat` yields for an input field: not-a-number, or a number. */
  datatype Number = NaN | Num(value: int)

  /** A date input field: empty, or holding a day. */
  datatype Option<T> = None | Some(value: T)

  datatype Error = InvalidStartingBalance | IncompleteTransaction

  datatype Outcome = Pass | Fail(error: Error)

  /** The four entry fields that editing stages for re-submission. */
  datatype Draft = Draft(kind: Kind, category: string, amount: Number, date: Option<int>)

  /** What the ledger keeps for every entry it accepts: a trimmed, non-empty
      category and a non-zero amount. */
  predicate WellFormed(t: Transaction) {
    t.category != [] && Trimmed(t.category) && t.amount != 0
  }

  /** The signed change one entry makes to the balance: Income adds its amount,
      Expense subtracts it. */
  function Effect(t: Transaction): int {
    match t.kind
    case Income => t.amount
    case Expense => -t.amount
  }

  /** The net effect of a sequence of entries, accumulated in order. */
  function Net(s: seq<Transaction>): int
    decreases |s|
  {
    if s == [] then 0 else Net(s[..|s| - 1]) + Effect(s[|s| - 1])
  }

  /** Total of the Income amounts. */
  function SumIncome(s: seq<Transaction>): int
    decreases |s|
  {
    if s == [] then 0
    else (if s[0].kind == Income then s[0].amount else 0) + SumIncome(s[1..])
  }

  /** Total of the Expense amounts. */
  function SumExpense(s: seq<Transaction>): int
    decreases |s|
  {
    if s == [] then 0
    else (if s[0].kind == Expense then s[0].amount else 0) + SumExpense(s[1..])
  }

  lemma NetSnoc(s: seq<Transaction>, t: Transaction)
    ensures Net(s + [t]) == Net(s) + Effect(t)
  {
    TakeSnoc(s, t);
  }

  /** The net effect is additive over concatenation. */
  lemma {:induction false} NetConcat(a: seq<Transaction>, b: seq<Transaction>)
    ensures Net(a + b) == Net(a) + Net(b)
    decreases |b|
  {
    if b == [] {
      assert a + b == a;
    } else {
      var init := b[..|b| - 1];
      NetConcat(a, init);
      ConcatSnoc(a, b);
      NetSnoc(a + init, b[|b| - 1]);
    }
  }

  /** The net effect is the Income total minus the Expense total. */
  lemma {:induction false} NetIsIncomeMinusExpense(s: seq<Transaction>)
    ensures Net(s) == SumIncome(s) - SumExpense(s)
    decreases |s|
  {
    if s != [] {
      NetIsIncomeMinusExpense(s[1..]);
      SplitFirst(s);
      NetConcat([s[0]], s[1..]);
      assert [s[0]][..0] == [];
    }
  }

  /** The ledger with the entry at position `i` taken out, the rest in order:
      `splice(i, 1)`. */
  function Removed(s: seq<Transaction>, i: nat): (r: seq<Transaction>)
    requires i < |s|
    ensures |r| == |s| - 1
    ensures forall k :: 0 <= k < i ==> r[k] == s[k]
    ensures forall k :: i <= k < |r| ==> r[k] == s[k + 1]
  {
    s[..i] + s[i + 1..]
  }

  /** Taking an entry out removes exactly its effect from the net. */
  lemma NetRemoved(s: seq<Transaction>, i: nat)
    requires i < |s|
    ensures Net(Removed(s, i)) == Net(s) - Effect(s[i])
  {
    var a, x, b := s[..i], s[i], s[i + 1..];
    SplitAt(s, i);
    NetConcat(a, b);
    NetSnoc(a, x);
    NetConcat(a + [x], b);
  }

  /** Removing the entry just appended gives back the ledger and the net. */
  lemma AppendRemoveRoundTrip(s: seq<Transaction>, t: Transaction)
    ensures Removed(s + [t], |s|) == s
    ensures Net(s + [t]) - Effect(t) == Net(s)
  {
    TakeSnoc(s, t);
    NetSnoc(s, t);
  }

  /** Taking entry `i` out and appending it again gives a permutation of the
      ledger with the same length and the same net effect. */
  lemma ResubmitRestores(s: seq<Transaction>, i: nat)
    requires i < |s|
    ensures |Removed(s, i) + [s[i]]| == |s|
    ensures multiset(Removed(s, i) + [s[i]]) == multiset(s)
    ensures Net(Removed(s, i) + [s[i]]) == Net(s)
  {
    SplitAt(s, i);
    NetRemoved(s, i);
    NetSnoc(Removed(s, i), s[i]);
  }
}
